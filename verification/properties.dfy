/**
 What the form handler guarantees about the table it leaves behind: the skip
 paths, the exact placement of the saved task, the frame of the shift, the
 shift's minimality, and the preservation of unique priorities. Every lemma
 holds for every row order the conflict query may return.
 */
module ReconcilerProperties {
  import opened Tasks
  import opened Ordering
  import opened Reconciler

  /** The rows the conflict query returns are exactly the candidate rows of the table. */
  lemma QueryRows(s: Store, req: Request, order: seq<Task>)
    requires Reconciling(req) && ArrangedAscending(order, Conflicts(s, req))
    ensures forall t :: t in order <==> t in s && IsCandidate(t, req.user, req.instance.priority, req.instance.id)
  {
    forall t ensures t in order <==> t in Conflicts(s, req) {
      assert t in multiset(order) <==> t in multiset(Conflicts(s, req));
    }
  }

  /**
   A row of the table is named by the shift batch exactly when it is one of
   the walked rows, and then every batch entry with its id is that row bumped.
   */
  lemma BatchNamesWalkedRows(s: Store, req: Request, order: seq<Task>, x: Task)
    requires Reconciling(req) && ArrangedAscending(order, Conflicts(s, req))
    requires DistinctIds(s) && x in s
    ensures var bulk := ShiftBatch(req, order);
            && (x.id in Ids(bulk) <==> x in order[..|bulk|])
            && (forall b :: b in bulk && b.id == x.id ==> b == Bump(x))
  {
    var bulk := ShiftBatch(req, order);
    var k := |bulk|;
    QueryRows(s, req, order);
    forall b | b in bulk && b.id == x.id ensures b == Bump(x) && x in order[..k] {
      var m :| 0 <= m < k && bulk[m] == b;
      assert bulk[m] == Bump(order[m]);
      assert order[m] in s;
      SameIdSameRow(s, order[m], x);
      assert order[..k][m] == x;
    }
    if x in order[..k] {
      var j :| 0 <= j < k && order[..k][j] == x;
      assert bulk[j] == Bump(order[j]);
      assert bulk[j] in bulk;
    }
  }

  /**
   The shape of the table after a write: each row other than the saved one
   keeps its place and is bumped exactly when the walk reached it; every other
   position holds the saved task; ids stay distinct.
   */
  lemma WriteEffect(s: Store, req: Request, order: seq<Task>, freshId: TaskId)
    requires ModelForm(req) && DistinctIds(s)
    requires QueryOrder(s, req, order) && FreshFor(s, req, freshId)
    ensures var r := FormValid(s, req, order, freshId);
            var w := SavedTask(req, freshId);
            var k := |ShiftBatch(req, order)|;
            && DistinctIds(r)
            && (forall a :: 0 <= a < |r| ==> r[a] == w || (a < |s| && s[a].id != w.id))
            && (forall i :: 0 <= i < |s| && s[i].id != w.id ==>
                  r[i] == if s[i] in order[..k] then Bump(s[i]) else s[i])
  {
    var r := FormValid(s, req, order, freshId);
    var w := SavedTask(req, freshId);
    var bulk := ShiftBatch(req, order);
    var k := |bulk|;
    if Reconciling(req) {
      var shifted := if k > 0 then BulkUpdatePriority(s, bulk) else s;
      assert r == Upsert(shifted, w);
      assert DistinctIds(shifted);
      forall i | 0 <= i < |s| && s[i].id != w.id
        ensures r[i] == if s[i] in order[..k] then Bump(s[i]) else s[i]
      {
        BatchNamesWalkedRows(s, req, order, s[i]);
        if s[i] in order[..k] {
          var b :| b in bulk && b.id == s[i].id && shifted[i].priority == b.priority;
        }
      }
    }
  }

  /**
   Skip on delete: on the delete view the bound row is flagged deleted and
   nothing else changes; no priority moves, no owner is reassigned, nothing is
   shifted, and no user's priorities stop being unique.
   */
  lemma DeleteSkip(s: Store, req: Request, order: seq<Task>, freshId: TaskId)
    requires req.confirmDelete && !ModelForm(req)
    ensures var r := FormValid(s, req, order, freshId);
            && ShiftBatch(req, order) == []
            && |r| == |s|
            && (forall i :: 0 <= i < |s| ==>
                  && r[i].id == s[i].id && r[i].user == s[i].user
                  && r[i].priority == s[i].priority && r[i].completed == s[i].completed
                  && (req.instance.id != Some(s[i].id) ==> r[i] == s[i]))
            && (forall u :: UniquePriorities(s, u, None) ==> UniquePriorities(r, u, None))
  {
    var r := FormValid(s, req, order, freshId);
    forall u | UniquePriorities(s, u, None) ensures UniquePriorities(r, u, None) {
      forall i, j | 0 <= i < j < |r| && Active(r[i], u) && Active(r[j], u)
        ensures r[i].priority != r[j].priority
      {
        assert Active(s[i], u) && Active(s[j], u);
      }
    }
  }

  /**
   Skip on completed: a completed instance is saved as it is and no other
   row changes.
   */
  lemma CompletedSkip(s: Store, req: Request, order: seq<Task>, freshId: TaskId)
    requires Claiming(req) && req.instance.completed
    requires FreshFor(s, req, freshId)
    ensures var r := FormValid(s, req, order, freshId);
            var w := SavedTask(req, freshId);
            && ShiftBatch(req, order) == []
            && w in r && w.completed && w.user == req.user
            && (forall i :: 0 <= i < |s| && s[i].id != w.id ==> r[i] == s[i])
            && (forall a :: 0 <= a < |r| ==> r[a] == w || (a < |s| && r[a] == s[a]))
  {
  }

  /**
   A delete confirmation posted to the create or update view skips the owner
   and the shift alike: the instance is saved as posted, with the owner it
   already had, and no other row changes.
   */
  lemma FlaggedSaveSkip(s: Store, req: Request, order: seq<Task>, freshId: TaskId)
    requires req.confirmDelete && ModelForm(req)
    requires FreshFor(s, req, freshId)
    ensures var r := FormValid(s, req, order, freshId);
            var w := SavedTask(req, freshId);
            && ShiftBatch(req, order) == []
            && w in r && w.user == req.instance.owner && w.priority == req.instance.priority
            && (forall i :: 0 <= i < |s| && s[i].id != w.id ==> r[i] == s[i])
            && (forall a :: 0 <= a < |r| ==> r[a] == w || (a < |s| && r[a] == s[a]))
  {
  }

  /**
   Exact placement: after a create or update, exactly one row carries the
   saved task's id, and it holds the acting user as owner and precisely the
   requested priority; other rows may move, the saved one never does.
   */
  lemma ExactPlacement(s: Store, req: Request, order: seq<Task>, freshId: TaskId)
    requires ModelForm(req) && DistinctIds(s)
    requires QueryOrder(s, req, order) && FreshFor(s, req, freshId)
    ensures var r := FormValid(s, req, order, freshId);
            var id := SavedTask(req, freshId).id;
            && DistinctIds(r)
            && (exists a :: 0 <= a < |r| && r[a].id == id)
            && (forall a :: 0 <= a < |r| && r[a].id == id ==>
                  && r[a].priority == req.instance.priority && r[a].completed == req.instance.completed
                  && (Claiming(req) ==> r[a].user == req.user)
                  && (!Claiming(req) ==> r[a].user == req.instance.owner))
            && (req.instance.id.None? ==> |r| == |s| + 1)
  {
    var r := FormValid(s, req, order, freshId);
    var w := SavedTask(req, freshId);
    WriteEffect(s, req, order, freshId);
    var a :| 0 <= a < |r| && r[a] == w;
  }

  /**
   Frame: a row other than the saved one either keeps its value or is a
   candidate of the conflict query (same user, active, at or above the
   requested priority, not the instance) raised by exactly one. No priority
   ever decreases, and no other field changes.
   */
  lemma Frame(s: Store, req: Request, order: seq<Task>, freshId: TaskId)
    requires ModelForm(req) && DistinctIds(s)
    requires QueryOrder(s, req, order) && FreshFor(s, req, freshId)
    ensures var r := FormValid(s, req, order, freshId);
            var w := SavedTask(req, freshId);
            forall i :: 0 <= i < |s| && s[i].id != w.id ==>
              || r[i] == s[i]
              || (IsCandidate(s[i], req.user, req.instance.priority, req.instance.id) && r[i] == Bump(s[i]))
  {
    WriteEffect(s, req, order, freshId);
    if Reconciling(req) {
      QueryRows(s, req, order);
    }
  }

  /**
   Minimal shift: the rows that move are exactly a prefix of the query's
   order, and every row from the first one above the walk's final cursor
   onwards stays where it was.
   */
  lemma MinimalShift(s: Store, req: Request, order: seq<Task>, freshId: TaskId)
    requires Reconciling(req) && DistinctIds(s)
    requires ArrangedAscending(order, Conflicts(s, req)) && FreshFor(s, req, freshId)
    ensures var r := FormValid(s, req, order, freshId);
            var w := SavedTask(req, freshId);
            var k := |ShiftBatch(req, order)|;
            && (forall i :: 0 <= i < |s| && s[i].id != w.id ==> (r[i] != s[i] <==> s[i] in order[..k]))
            && (forall m :: k <= m < |order| ==> order[m].priority > CursorAfter(order, req.instance.priority, k))
  {
    WriteEffect(s, req, order, freshId);
    var k := |ShiftBatch(req, order)|;
    forall m | k <= m < |order| ensures order[m].priority > CursorAfter(order, req.instance.priority, k) {
      assert k == m || order[k].priority <= order[m].priority;
    }
  }

  /**
   No conflict, no work: the shift batch is empty exactly when no candidate
   holds the requested priority, and then the handler only saves the instance.
   */
  lemma NoConflictNoWork(s: Store, req: Request, order: seq<Task>, freshId: TaskId)
    requires Reconciling(req)
    requires ArrangedAscending(order, Conflicts(s, req)) && FreshFor(s, req, freshId)
    ensures (ShiftBatch(req, order) == []) <==> (forall t :: t in Conflicts(s, req) ==> t.priority != req.instance.priority)
    ensures ShiftBatch(req, order) == [] ==> FormValid(s, req, order, freshId) == Upsert(s, SavedTask(req, freshId))
  {
    var p := req.instance.priority;
    QueryRows(s, req, order);
    if ShiftBatch(req, order) == [] {
      forall t | t in Conflicts(s, req) ensures t.priority != p {
        assert t in order;
        var m :| 0 <= m < |order| && order[m] == t;
        assert 0 == m || order[0].priority <= order[m].priority;
      }
    } else {
      assert order[0] in Conflicts(s, req);
    }
  }

  /**
   Where a row of `req.user`'s ranking lands relative to the walk: a walked
   row rises to at most the final cursor, and a row the walk left lies below
   the requested priority or above the final cursor.
   */
  lemma Separation(s: Store, req: Request, order: seq<Task>, y: Task)
    requires Reconciling(req) && ArrangedAscending(order, Conflicts(s, req))
    requires y in s && Active(y, req.user) && req.instance.id != Some(y.id)
    ensures var p := req.instance.priority;
            var k := |ShiftBatch(req, order)|;
            var reach := CursorAfter(order, p, k);
            && reach >= p
            && (y in order[..k] ==> p <= y.priority && y.priority + 1 <= reach)
            && (y !in order[..k] ==> y.priority < p || y.priority > reach)
  {
    var p := req.instance.priority;
    var k := |ShiftBatch(req, order)|;
    var reach := CursorAfter(order, p, k);
    QueryRows(s, req, order);
    assert forall m :: 0 <= m < k ==> order[m] == order[..k][m];
    if k > 0 {
      assert order[k - 1] in order;
    }
    if y in order[..k] {
      var j :| 0 <= j < k && order[..k][j] == y;
      assert j == k - 1 || order[j].priority <= order[k - 1].priority;
    } else if y.priority >= p {
      assert y in order;
      var m :| 0 <= m < |order| && order[m] == y;
      assert k == m || order[k].priority <= order[m].priority;
    }
  }

  /**
   Uniqueness preserved: if `req.user`'s active tasks other than the instance
   held pairwise distinct priorities, then after the write all of that user's
   active tasks, the saved one included, hold pairwise distinct priorities.
   */
  lemma UniquenessPreserved(s: Store, req: Request, order: seq<Task>, freshId: TaskId)
    requires Claiming(req) && DistinctIds(s)
    requires QueryOrder(s, req, order) && FreshFor(s, req, freshId)
    requires UniquePriorities(s, req.user, req.instance.id)
    ensures UniquePriorities(FormValid(s, req, order, freshId), req.user, None)
  {
    if req.instance.completed {
      var r := FormValid(s, req, order, freshId);
      var w := SavedTask(req, freshId);
      CompletedSkip(s, req, order, freshId);
      forall a, b | 0 <= a < b < |r| && Active(r[a], req.user) && Active(r[b], req.user)
        ensures r[a].priority != r[b].priority
      {
        assert r[a] == s[a] && r[b] == s[b];
      }
    } else {
      WalkKeepsUnique(s, req, order, freshId);
    }
  }

  /** Uniqueness on the renumbering path: the walk's rows and the saved task end apart from each other and from the rest. */
  lemma WalkKeepsUnique(s: Store, req: Request, order: seq<Task>, freshId: TaskId)
    requires Reconciling(req) && DistinctIds(s)
    requires ArrangedAscending(order, Conflicts(s, req)) && FreshFor(s, req, freshId)
    requires UniquePriorities(s, req.user, req.instance.id)
    ensures UniquePriorities(FormValid(s, req, order, freshId), req.user, None)
  {
    var r := FormValid(s, req, order, freshId);
    var w := SavedTask(req, freshId);
    var u := req.user;
    WriteEffect(s, req, order, freshId);
    forall a, b | 0 <= a < b < |r| && Active(r[a], u) && Active(r[b], u)
      ensures r[a].priority != r[b].priority
    {
      if r[a] == w {
        assert r[b].id != w.id;
        SavedApart(s, req, order, freshId, b);
      } else if r[b] == w {
        SavedApart(s, req, order, freshId, a);
      } else {
        assert a < |s| && s[a].id != w.id && b < |s| && s[b].id != w.id;
        assert Active(s[a], u) && Active(s[b], u);
        RestApart(s, req, order, freshId, a, b);
      }
    }
  }

  /** Two active rows of `req.user` other than the saved task, apart before the write, stay apart after it. */
  lemma RestApart(s: Store, req: Request, order: seq<Task>, freshId: TaskId, a: nat, b: nat)
    requires Reconciling(req) && DistinctIds(s)
    requires ArrangedAscending(order, Conflicts(s, req)) && FreshFor(s, req, freshId)
    requires a < |s| && b < |s| && s[a].id != SavedTask(req, freshId).id && s[b].id != SavedTask(req, freshId).id
    requires Active(s[a], req.user) && Active(s[b], req.user) && s[a].priority != s[b].priority
    ensures var r := FormValid(s, req, order, freshId);
            a < |r| && b < |r| && r[a].priority != r[b].priority
  {
    WriteEffect(s, req, order, freshId);
    Separation(s, req, order, s[a]);
    Separation(s, req, order, s[b]);
  }

  /** An active row of `req.user` other than the saved task never ends at the requested priority. */
  lemma SavedApart(s: Store, req: Request, order: seq<Task>, freshId: TaskId, b: nat)
    requires Reconciling(req) && DistinctIds(s)
    requires QueryOrder(s, req, order) && FreshFor(s, req, freshId)
    requires b < |s| && s[b].id != SavedTask(req, freshId).id && Active(s[b], req.user)
    ensures var r := FormValid(s, req, order, freshId);
            b < |r| && r[b].priority != req.instance.priority
  {
    WriteEffect(s, req, order, freshId);
    Separation(s, req, order, s[b]);
  }

  /**
   Rankings of users other than the acting user and the saved task's owner
   are untouched by a save: their unique priorities stay unique.
   */
  lemma OtherUsersUntouched(s: Store, req: Request, order: seq<Task>, freshId: TaskId)
    requires ModelForm(req) && DistinctIds(s)
    requires QueryOrder(s, req, order) && FreshFor(s, req, freshId)
    ensures var r := FormValid(s, req, order, freshId);
            var w := SavedTask(req, freshId);
            forall u :: u != req.user && u != w.user && UniquePriorities(s, u, None) ==> UniquePriorities(r, u, None)
  {
    var r := FormValid(s, req, order, freshId);
    var w := SavedTask(req, freshId);
    WriteEffect(s, req, order, freshId);
    Frame(s, req, order, freshId);
    forall u | u != req.user && u != w.user && UniquePriorities(s, u, None) ensures UniquePriorities(r, u, None) {
      forall i, j | 0 <= i < j < |r| && Active(r[i], u) && Active(r[j], u)
        ensures r[i].priority != r[j].priority
      {
        assert r[i] != w && r[j] != w;
        assert r[i] == s[i] && r[j] == s[j];
      }
    }
  }

  /**
   The walk as written bumps each row to its own priority plus one, not to the
   cursor plus one: two rows that already share the requested priority both
   move to the next priority, so a duplicate survives one step up.
   */
  lemma DuplicatesMoveTogether(order: seq<Task>, p: int)
    requires |order| >= 2 && order[0].priority == p && order[1].priority == p
    ensures var batch := Cascade(order, p);
            |batch| >= 2 && batch[0].priority == p + 1 && batch[1].priority == p + 1
  {
  }
}
