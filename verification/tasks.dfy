/**
 The task table as the priority reconciler sees it: rows, the predicates that
 describe a user's ranking, and the three writes the view performs on the
 table (a single-row save, a priority-only bulk update, and a soft delete).
 */
module Tasks {

  datatype Option<T> = None | Some(value: T)

  type TaskId = nat
  type UserId = nat

  /** One row of the task table. */
  datatype Task = Task(id: TaskId, user: UserId, priority: int, completed: bool, deleted: bool)

  /** The task table, one entry per row. Ids are primary keys (see `DistinctIds`). */
  type Store = seq<Task>

  /** A task that takes part in `user`'s ranking: owned by `user`, neither soft-deleted nor completed. */
  predicate Active(t: Task, user: UserId) {
    t.user == user && !t.deleted && !t.completed
  }

  function Ids(s: seq<Task>): set<TaskId> {
    set t | t in s :: t.id
  }

  /** Every id names at most one row. */
  predicate DistinctIds(s: Store) {
    forall i, j :: 0 <= i < |s| && 0 <= j < |s| && s[i].id == s[j].id ==> i == j
  }

  /** No two active tasks of `user` share a priority, leaving aside the row with id `except`, if any. */
  predicate UniquePriorities(s: Store, user: UserId, except: Option<TaskId>) {
    forall i, j ::
      0 <= i < j < |s| && Active(s[i], user) && Active(s[j], user)
      && except != Some(s[i].id) && except != Some(s[j].id)
      ==> s[i].priority != s[j].priority
  }

  /** Uniqueness over a whole ranking implies uniqueness with one row left aside. */
  lemma UniqueLeavingOneAside(s: Store, user: UserId, except: Option<TaskId>)
    requires UniquePriorities(s, user, None)
    ensures UniquePriorities(s, user, except)
  {
  }

  /** In a table with distinct ids, two rows with the same id are the same row. */
  lemma SameIdSameRow(s: Store, x: Task, y: Task)
    requires DistinctIds(s)
    requires x in s && y in s && x.id == y.id
    ensures x == y
  {
    var i :| 0 <= i < |s| && s[i] == x;
    var j :| 0 <= j < |s| && s[j] == y;
  }

  /**
   A single-row save: the row with `t`'s id is overwritten by `t`, or `t` is
   inserted when no row has that id. Every other row keeps its place and value.
   */
  function Upsert(s: Store, t: Task): (r: Store)
    ensures t in r
    ensures |r| == if t.id in Ids(s) then |s| else |s| + 1
    ensures forall i :: 0 <= i < |s| && s[i].id != t.id ==> r[i] == s[i]
    ensures forall i :: 0 <= i < |r| ==> r[i] == t || (i < |s| && s[i].id != t.id)
    ensures DistinctIds(s) ==> DistinctIds(r)
  {
    if t.id in Ids(s) then
      var r := seq(|s|, i requires 0 <= i < |s| => if s[i].id == t.id then t else s[i]);
      assert t in r by {
        var i :| 0 <= i < |s| && s[i].id == t.id;
        assert r[i] == t;
      }
      r
    else
      s + [t]
  }

  /** The first entry of `batch` carrying id `id`, if there is one. */
  function FindById(batch: seq<Task>, id: TaskId): (r: Option<Task>)
    ensures r.Some? ==> r.value in batch && r.value.id == id
    ensures r.None? <==> id !in Ids(batch)
  {
    if |batch| == 0 then None
    else if batch[0].id == id then Some(batch[0])
    else
      assert batch == [batch[0]] + batch[1..];
      FindById(batch[1..], id)
  }

  /**
   A bulk update of the priority field: each row whose id occurs in `batch`
   takes the priority of a batch entry with that id. No other field and no
   other row changes.
   */
  function BulkUpdatePriority(s: Store, batch: seq<Task>): (r: Store)
    ensures |r| == |s|
    ensures forall i :: 0 <= i < |s| ==> r[i] == s[i].(priority := r[i].priority)
    ensures forall i :: 0 <= i < |s| && s[i].id !in Ids(batch) ==> r[i] == s[i]
    ensures forall i :: 0 <= i < |s| && s[i].id in Ids(batch) ==>
              exists b :: b in batch && b.id == s[i].id && r[i].priority == b.priority
  {
    seq(|s|, i requires 0 <= i < |s| =>
      match FindById(batch, s[i].id)
      case Some(b) => s[i].(priority := b.priority)
      case None => s[i])
  }

  /** A soft delete: the row with id `target` is flagged deleted; every other row, and every other field, is left alone. */
  function SoftDelete(s: Store, target: Option<TaskId>): (r: Store)
    ensures |r| == |s|
    ensures forall i :: 0 <= i < |s| ==> r[i] == s[i] || (target == Some(s[i].id) && r[i] == s[i].(deleted := true))
    ensures forall i :: 0 <= i < |s| && target == Some(s[i].id) ==> r[i].deleted
  {
    seq(|s|, i requires 0 <= i < |s| => if target == Some(s[i].id) then s[i].(deleted := true) else s[i])
  }
}
