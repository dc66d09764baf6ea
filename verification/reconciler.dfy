/**
 The priority reconciler of the task views: the form handler that, before a
 task is saved with priority `p`, pushes the user's conflicting tasks up by
 one so that the saved task can take `p` itself.

 The handler is one atomic state transition from one table to the next. The
 rows the conflict query returns arrive in an order the database chooses among
 rows of equal priority, so that order is a parameter (`order`), constrained
 only to be an ascending arrangement of the conflicting rows.
 */
module Reconciler {
  import opened Tasks
  import opened Ordering

  /** The view a form is posted to. */
  datatype View = CreateView | UpdateView | DeleteView

  /**
   The form's instance: the task being created (no id yet), or the one being
   updated or deleted, with the fields as posted and the owner it carries
   before the handler sets one.
   */
  datatype Draft = Draft(id: Option<TaskId>, owner: UserId, priority: int, completed: bool, deleted: bool)

  /** A posted form: the view it reaches, the acting user, whether the delete confirmation was posted, and the instance. */
  datatype Request = Request(view: View, user: UserId, confirmDelete: bool, instance: Draft)

  /** The create and update views post the task form, a model form whose save writes the instance; the delete view posts a plain form. */
  predicate ModelForm(req: Request) {
    req.view != DeleteView
  }

  /** The handler goes past the delete check and makes the acting user the instance's owner. */
  predicate Claiming(req: Request) {
    !req.confirmDelete && ModelForm(req)
  }

  /** The conflict query's filter: `user`'s active tasks at priority `p` or above, other than the row `exclude` names. */
  predicate IsCandidate(t: Task, user: UserId, p: int, exclude: Option<TaskId>) {
    Active(t, user) && t.priority >= p && exclude != Some(t.id)
  }

  /** The rows of `s` that pass the conflict query's filter, in table order. */
  function Candidates(s: Store, user: UserId, p: int, exclude: Option<TaskId>): (c: seq<Task>)
    ensures forall t :: t in c <==> t in s && IsCandidate(t, user, p, exclude)
    ensures |c| <= |s|
  {
    if |s| == 0 then []
    else
      assert s == [s[0]] + s[1..];
      (if IsCandidate(s[0], user, p, exclude) then [s[0]] else []) + Candidates(s[1..], user, p, exclude)
  }

  /** The conflict query of a request: its instance is excluded by id, and a new instance (no id) excludes nothing. */
  function Conflicts(s: Store, req: Request): seq<Task> {
    Candidates(s, req.user, req.instance.priority, req.instance.id)
  }

  /** The handler renumbers only when it claims the instance and the instance is not completed. */
  predicate Reconciling(req: Request) {
    Claiming(req) && !req.instance.completed
  }

  /** `order` is a row order the conflict query may return for `req` against `s`. */
  predicate QueryOrder(s: Store, req: Request, order: seq<Task>) {
    Reconciling(req) ==> ArrangedAscending(order, Conflicts(s, req))
  }

  /** When a new instance is saved, the id the database assigns to it is not already in use. */
  predicate FreshFor(s: Store, req: Request, freshId: TaskId) {
    ModelForm(req) && req.instance.id.None? ==> freshId !in Ids(s)
  }

  function Bump(t: Task): Task {
    t.(priority := t.priority + 1)
  }

  /** The walk's cursor once the first `j` rows of `order` have been shifted, starting from `cursor`. */
  function CursorAfter(order: seq<Task>, cursor: int, j: nat): int
    requires j <= |order|
  {
    if j == 0 then cursor else order[j - 1].priority + 1
  }

  /**
   The walk over the conflicting rows: each row whose priority does not exceed
   the cursor is shifted to its own priority plus one, which becomes the new
   cursor; the first row above the cursor ends the walk. The result is the
   batch of shifted rows.
   */
  function Cascade(order: seq<Task>, cursor: int): (batch: seq<Task>)
    ensures |batch| <= |order|
    ensures forall j {:trigger batch[j]} :: 0 <= j < |batch| ==> batch[j] == Bump(order[j])
    ensures forall j {:trigger batch[j]} :: 0 <= j < |batch| ==> order[j].priority <= CursorAfter(order, cursor, j)
    ensures |batch| < |order| ==> order[|batch|].priority > CursorAfter(order, cursor, |batch|)
    decreases |order|
  {
    if |order| == 0 || order[0].priority > cursor then []
    else
      var task := Bump(order[0]);
      var rest := Cascade(order[1..], task.priority);
      var batch := [task] + rest;
      forall j | 0 <= j < |batch| ensures order[j].priority <= CursorAfter(order, cursor, j) {
        if j > 0 {
          assert rest[j - 1] == batch[j];
          assert order[1..][j - 1] == order[j];
          assert CursorAfter(order[1..], task.priority, j - 1) == CursorAfter(order, cursor, j);
        }
      }
      assert |rest| < |order[1..]| ==> CursorAfter(order[1..], task.priority, |rest|) == CursorAfter(order, cursor, |batch|);
      batch
  }

  /** One step of the walk from position `i`: the row there is shifted, and the walk goes on from its new priority. */
  lemma CascadeStep(order: seq<Task>, i: nat, cursor: int)
    requires i < |order| && order[i].priority <= cursor
    ensures Cascade(order[i..], cursor) == [Bump(order[i])] + Cascade(order[i + 1..], order[i].priority + 1)
  {
    assert order[i..][1..] == order[i + 1..];
  }

  /** The loop's invariant carried over one shifted row. */
  lemma CascadeStepAfter(order: seq<Task>, i: nat, cursor: int, bulk: seq<Task>)
    requires i < |order| && order[i].priority <= cursor
    ensures bulk + Cascade(order[i..], cursor) == (bulk + [Bump(order[i])]) + Cascade(order[i + 1..], order[i].priority + 1)
  {
    CascadeStep(order, i, cursor);
  }

  /** The walk written as the view's loop, with a cursor that moves and a batch that grows. */
  method CascadeLoop(order: seq<Task>, p: int) returns (bulk: seq<Task>)
    ensures bulk == Cascade(order, p)
  {
    bulk := [];
    var cursor := p;
    var i := 0;
    while i < |order|
      invariant 0 <= i <= |order|
      invariant bulk + Cascade(order[i..], cursor) == Cascade(order, p)
    {
      var task := order[i];
      if task.priority > cursor {
        break;
      }
      CascadeStepAfter(order, i, cursor, bulk);
      task := task.(priority := task.priority + 1);
      cursor := task.priority;
      bulk := bulk + [task];
      i := i + 1;
    }
  }

  /** `t` holds what the form posted for `d`: its priority and flags, and its id when `d` has one. */
  predicate Carries(t: Task, d: Draft) {
    && t.priority == d.priority && t.completed == d.completed && t.deleted == d.deleted
    && (d.id.Some? ==> t.id == d.id.value)
  }

  /**
   The row the form's save writes. Once the handler has claimed the instance,
   its owner is the acting user; a save reached through the delete check keeps
   the owner the instance had.
   */
  function SavedTask(req: Request, freshId: TaskId): (t: Task)
    ensures Carries(t, req.instance)
    ensures req.instance.id.None? ==> t.id == freshId
    ensures Claiming(req) ==> t.user == req.user
    ensures !Claiming(req) ==> t.user == req.instance.owner
  {
    Task(if req.instance.id.Some? then req.instance.id.value else freshId,
         if Claiming(req) then req.user else req.instance.owner,
         req.instance.priority, req.instance.completed, req.instance.deleted)
  }

  /** The rows the handler bulk-updates for `req`; nothing unless it is reconciling. */
  function ShiftBatch(req: Request, order: seq<Task>): (batch: seq<Task>)
    ensures |batch| <= |order|
    ensures !Reconciling(req) ==> batch == []
  {
    if Reconciling(req) then Cascade(order, req.instance.priority) else []
  }

  /**
   The form handler, as the table it leaves behind. A posted delete
   confirmation hands the form to the parent view: the delete view
   soft-deletes the bound row, and the create and update views save the
   instance as posted. Without it the delete view fails when it sets the
   owner, because its plain form has no instance, and nothing is written.
   Otherwise the instance is owned by the acting user; a completed instance
   is saved as it is; an incomplete one first has its conflicting rows
   shifted (the bulk update runs only when the batch is not empty), then is
   saved with the priority it asked for.
   */
  function FormValid(s: Store, req: Request, order: seq<Task>, freshId: TaskId): (r: Store)
    requires QueryOrder(s, req, order)
    requires FreshFor(s, req, freshId)
    ensures |r| == |s| || |r| == |s| + 1
    ensures ModelForm(req) ==> SavedTask(req, freshId) in r
    ensures !ModelForm(req) ==> |r| == |s|
    ensures !req.confirmDelete && !ModelForm(req) ==> r == s
  {
    if req.confirmDelete then
      if ModelForm(req) then Upsert(s, SavedTask(req, freshId))
      else SoftDelete(s, req.instance.id)
    else if !ModelForm(req) then
      s
    else if req.instance.completed then
      Upsert(s, SavedTask(req, freshId))
    else
      var bulk := ShiftBatch(req, order);
      var shifted := if |bulk| > 0 then BulkUpdatePriority(s, bulk) else s;
      Upsert(shifted, SavedTask(req, freshId))
  }
}
