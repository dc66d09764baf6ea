# Priority reconciler of the task views

A Dafny model of the form handler that the task-list application runs when a
task form is posted to the create, update or delete view
(`BaseTaskView.form_valid` in `tasks/views.py`). Every task has an integer
priority. Before a task is saved with priority `p`, the handler moves the
owner's other tasks out of the way:

1. A posted delete confirmation skips the rest of the handler. The form goes
   to the parent view's own handler. The delete view deletes the bound row.
   The create and update views save the instance as posted, with no owner
   set and nothing renumbered.
2. Otherwise the instance's owner becomes the acting user. The delete view
   fails at this step, because its form is a plain form with no instance, and
   nothing is written. A completed instance is saved as it is.
3. Otherwise the conflict query selects the user's tasks that are not
   deleted, not completed, at priority `p` or above, and not the instance
   itself. It returns them sorted by ascending priority.
4. The handler walks those rows with a cursor that starts at `p`. It stops at
   the first row whose priority is above the cursor. Every row before that
   gets its own priority plus one, and that value becomes the new cursor.
5. The shifted rows are bulk-updated (priority only). Then the instance is
   saved with exactly the priority `p` it asked for.

The model treats one call as a pure function from the table before to the
table after (`Reconciler.FormValid`). The table is a `seq<Task>` whose ids are
primary keys. A request records the view it reaches (`Reconciler.View`), the
acting user, the delete confirmation, and the instance as posted, including
the owner it carries before the handler sets one. The database chooses two
things the code does not fix, and both are parameters:

- `order`: the query's rows in some ascending order. The order among rows of
  equal priority is up to the database. The lemmas of `ReconcilerProperties`,
  and the single-step lemmas of `Replay`, are proved for every admissible
  order. `Ordering.SortByPriority` shows that one always exists.
- `freshId`: the id a new row receives. It is required to be unused.
- `Replay.Run` replays a sequence of forms with the two choices fixed: the
  query order is `SortByPriority`'s and the new id is one above the largest in
  use (`Replay.Step`).

Modules:

- `Tasks` (`tasks.dfy`): the row type, the ranking predicates, and the three
  writes (save, bulk update of the priority field, soft delete).
- `Ordering` (`ordering.dfy`): ascending arrangements and an insertion sort.
- `Reconciler` (`reconciler.dfy`): the conflict query, the walk (as a recursive
  function and as the view's loop), and the handler.
- `ReconcilerProperties` (`properties.dfy`): skip paths, exact placement,
  frame, minimal shift, "no conflict, no work", and uniqueness.
- `Replay` (`replay.dfy`): the handler applied to any sequence of requests,
  with uniqueness as an invariant.
- `Scenarios` (`scenarios.dfy`): worked examples.

Two behaviours of the code deserve a note:

- Line 52 sets a walked row to its own priority plus one, not to the cursor
  plus one. The two agree when priorities are distinct. When two rows already
  share `p`, both move to `p + 1` and the duplicate survives
  (`ReconcilerProperties.DuplicatesMoveTogether`).
- The handler keeps a user's priorities distinct only if the user's other
  active tasks had distinct priorities beforehand
  (`ReconcilerProperties.UniquenessPreserved` assumes that), and only when the
  delete confirmation is not posted to the create or update view
  (`Scenarios.FlaggedUpdateDuplicates`).

## Model

| member | source | states |
|---|---|---|
| Tasks.Upsert | tasks/views.py:56 | The save writes the instance over the row with its id, or inserts it when no row has that id. Every other row keeps its place and value, and ids stay distinct. |
| Tasks.BulkUpdatePriority | tasks/views.py:55 | The bulk update changes only the priority field. It changes only the rows whose ids are in the batch, each to the priority of a batch entry with that id. |
| Tasks.SoftDelete | tasks/views.py:25-27 | On the delete path only the bound row changes, and only its deleted flag is set. Every other row and field stays as it was. |
| Ordering.Insert | tasks/views.py:45 | Inserting a row into an ascending sequence keeps it ascending and adds exactly that row. |
| Ordering.SortByPriority | tasks/views.py:45 | Any set of query rows has an ascending-priority arrangement with the same rows and counts, so the ordered query always has a result. |
| Reconciler.Candidates | tasks/views.py:36-43 | A row is in the conflict query exactly when it belongs to the acting user, is neither deleted nor completed, has priority at least `p`, and is not the instance. |
| Reconciler.Cascade | tasks/views.py:49-53 | The walk shifts a prefix of the ordered rows, each to its own priority plus one. Every shifted row was at or below the cursor when reached. The first row left alone is above the cursor. |
| Reconciler.CascadeLoop | tasks/views.py:48-53 | The loop that builds `bulk` with a moving cursor and a `break` produces exactly the batch the walk defines. |
| Reconciler.FormValid | tasks/views.py:24-57 | A form posted to the create or update view leaves the saved task in the table and adds at most one row. The delete view keeps the table's size. Without the confirmation it changes nothing, since it fails at line 29 before any write. |
| ReconcilerProperties.QueryRows | tasks/views.py:36-46 | The ordered query returns exactly the candidate rows of the table. |
| ReconcilerProperties.BatchNamesWalkedRows | tasks/views.py:52-55 | A table row's id is in the bulk batch exactly when the walk reached that row, and every batch entry with that id is the row raised by one. |
| ReconcilerProperties.WriteEffect | tasks/views.py:36-56 | After a save from the create or update view, each row other than the saved one keeps its position. It is raised by one exactly when the walk reached it. Every other position holds the saved task, and ids stay distinct. |
| ReconcilerProperties.DeleteSkip | tasks/views.py:25-27 | A confirmed delete on the delete view shifts nothing and moves no priority. It reassigns no owner, changes no row but the bound one, and keeps every user's unique priorities unique. |
| ReconcilerProperties.CompletedSkip | tasks/views.py:29-33 | A completed instance shifts nothing. It is saved as it is under the acting user, and every other row is unchanged. |
| ReconcilerProperties.FlaggedSaveSkip | tasks/views.py:25-27 | A delete confirmation posted to the create or update view shifts nothing. The instance is saved at its posted priority with the owner it already had, and every other row is unchanged. |
| ReconcilerProperties.ExactPlacement | tasks/views.py:29-56 | After a save from the create or update view, exactly one row has the saved task's id. That row holds exactly the requested priority, and the acting user as owner once the handler has claimed it. A create adds one row. |
| ReconcilerProperties.Frame | tasks/views.py:36-55 | A row other than the saved one is either unchanged, or it is a candidate (same user, active, at or above `p`, not the instance) raised by exactly one. No priority ever decreases. |
| ReconcilerProperties.MinimalShift | tasks/views.py:49-53 | The rows that change are exactly the walked prefix of the query order. Every row from the stopping row onwards is above the final cursor and stays unchanged. |
| ReconcilerProperties.NoConflictNoWork | tasks/views.py:49-56 | The batch is empty exactly when no candidate holds `p`. In that case the handler only saves the instance. |
| ReconcilerProperties.Separation | tasks/views.py:49-53 | A walked row ends at or below the final cursor, which is at least `p`. An unwalked active row of the user lies below `p` or above the final cursor. |
| ReconcilerProperties.UniquenessPreserved | tasks/views.py:29-56 | Take a request the handler claims, where the user's active tasks other than the instance had distinct priorities. Afterwards all of the user's active tasks, the saved one included, have distinct priorities. |
| ReconcilerProperties.WalkKeepsUnique | tasks/views.py:35-56 | The same uniqueness guarantee on the renumbering path. |
| ReconcilerProperties.SavedApart | tasks/views.py:35-56 | When the instance is open, no other active row of the user ends at the requested priority. |
| ReconcilerProperties.OtherUsersUntouched | tasks/views.py:37-38 | A save never breaks uniqueness of the priorities of a user who is neither the acting user nor the saved task's owner. |
| ReconcilerProperties.DuplicatesMoveTogether | tasks/views.py:52 | When two query rows already share the requested priority, both move to the next priority. |
| Replay.QueryResult | tasks/views.py:36-46 | The sorted query result is an admissible row order for the handler. |
| Replay.WriteKeepsRankingsUnique | tasks/views.py:29-56 | Start from a table with distinct ids and unique priorities for every user. A create or update the handler claims keeps both properties, for every admissible query order and every unused new id. |
| Replay.StepKeepsRankingsUnique | tasks/views.py:24-57 | Take any form whose delete confirmation, if posted, reaches only the delete view. Handling it keeps distinct ids and unique priorities for every user, for every admissible query order and every unused new id. |
| Replay.RunKeepsRankingsUnique | tasks/views.py:24-57 | Across any sequence of such forms, replayed with the query order and new ids that `Replay.Step` fixes, ids stay distinct and every user's priorities stay unique. |
| Scenarios.ContiguousRunShifts | tasks/views.py:35-56 | Tasks at 3, 4, 5 and a new task at 4: the tasks at 4 and 5 move to 5 and 6, and the new task takes 4. |
| Scenarios.GapStopsWalk | tasks/views.py:49-56 | Tasks at 3, 6, 7 and a new task at 4: the walk stops at once, the batch is empty, and only the new task is written. |
| Scenarios.UpdateVacatesOldSlot | tasks/views.py:36-56 | Tasks A at 3, B at 5, C at 6, and B moves to 3: A goes to 4, C stays at 6, and B holds 3. |
| Scenarios.CompletedSharesPriority | tasks/views.py:31-33 | A completed new task at an occupied priority is saved without shifting, so both tasks hold that priority. |
| Scenarios.FlaggedUpdateDuplicates | tasks/views.py:25-27 | A at 3 and B at 5. B's update form is posted with priority 3 and the delete confirmation. B is saved at 3 without shifting A, so a unique ranking becomes one with a shared priority. |

## Left out

- Row locking (`select_for_update`, line 44) and the transaction (line 47).
  These are about concurrency. The model treats one call as a single atomic
  transition from table to table.
- Commit failures and rollback are not modelled. The model has no failing
  store, so the all-or-nothing guarantee is trivially met.
- Column width: `Task.priority` is an unbounded `int` in the model, while the
  database column is a bounded integer (2147483647 at most for a 32-bit
  integer column). In the code, a bump at line 52 past the column's range
  makes `bulk_update` (line 55) fail, and the atomic block (line 47) rolls
  the whole transaction back. `Reconciler.FormValid` instead returns a table
  holding the row one above the maximum.
- `batch_size=1000` (line 55) splits the bulk update into batches. This does
  not affect the resulting table, so it is not modelled.
- HTTP: the redirect (line 57), `success_url`, the parsing of `request.POST`,
  and the server error the delete view raises at line 29 without the delete
  confirmation. The model keeps only the table, which that error leaves
  unchanged. The delete confirmation is a boolean, `Request.confirmDelete`.
- The parent views' handlers are Django's and are not part of this model.
  The model takes the create and update views' handler to save the form's
  instance, and the delete view's handler to delete the bound object.
- Ownership checks (`ObjectOwnerMixin`) and form validation (`TaskForm`).
  `tasks/mixins.py` and `tasks/forms.py` are not part of this model. The
  priority may be any integer, and the update case does not require the
  instance's row to exist (the save then inserts it). The model does not tie
  a view to whether its instance has an id; every lemma holds for any
  combination.
- The owner a new instance carries before line 29 is whatever the form left
  in it (`Draft.owner`). Whether the Task model accepts a new row without an
  owner, as a confirmed create would save, is decided by `tasks/models.py`,
  which is not part of this model.
- What the delete view does to the bound row is decided by Django and the
  Task model. `tasks/models.py` is not part of this model. `Tasks.SoftDelete`
  assumes that the Task model's `delete()` only sets `deleted`.
- Id assignment on insert is the database's choice. It is the `freshId`
  parameter, required to be unused (`Reconciler.FreshFor`). `Replay` picks one
  above the largest id in use.
- A create's `exclude(pk=None)` excludes no row. The database never stores a
  null key, so `Draft.id` is an `Option` and `None` excludes nothing.
- The order among query rows of equal priority is the database's choice. It
  is the `order` parameter. Every lemma of `ReconcilerProperties`, and
  `Replay.WriteKeepsRankingsUnique` and `Replay.StepKeepsRankingsUnique`,
  hold for every admissible order and every unused new id.
- The class-level queryset (line 19) is not modelled. It serves object lookup
  and listing, not the handler.
- `TaskListView` (lines 60-76): pagination, the status filter and the counts
  are not modelled. They are thin query filters.
- The detail, create and update view subclasses (lines 79-88) add no code of
  their own; the create and update views appear as `Reconciler.View` values.
  The delete view (lines 91-92) sets `form_class = Form` at line 92, so its
  form is a plain form with no instance. `Reconciler.ModelForm(req)` encodes
  that line: it is false exactly for the delete view, and `FormValid`'s
  branch for the delete view without the confirmation (the failure at line
  29) rests on it.
- Replay.StepKeepsRankingsUnique: does not promise uniqueness for a delete
  confirmation posted to the create or update view. The code saves such a
  form as posted without renumbering, which can leave two tasks at one
  priority (`Scenarios.FlaggedUpdateDuplicates`).
- Replay.RunKeepsRankingsUnique: does not promise uniqueness for a sequence
  that contains such a form, for the same reason.
- Replay.RunKeepsRankingsUnique: fixes the query order to `SortByPriority`
  and the new id to `MaxId(s) + 1` at every step. It does not cover a run in
  which the database orders rows of equal priority differently, or assigns
  other unused ids. Each single step is covered for every such choice by
  `Replay.StepKeepsRankingsUnique`.
