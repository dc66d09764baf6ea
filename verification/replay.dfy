/**
 The form handler applied to a sequence of posted forms, each against the
 table the previous one left. The database's choices are fixed here: the
 conflict query returns its rows sorted by `SortByPriority`, and a new row
 takes the id one above the largest in use.
 */
module Replay {
  import opened Tasks
  import opened Ordering
  import opened Reconciler
  import opened ReconcilerProperties

  /** The largest id in use, or 0 for an empty table. */
  function MaxId(s: Store): (m: nat)
    ensures forall t :: t in s ==> t.id <= m
  {
    if |s| == 0 then 0
    else
      var rest := MaxId(s[1..]);
      assert forall t :: t in s ==> t == s[0] || t in s[1..];
      if s[0].id > rest then s[0].id else rest
  }

  /** The row order the conflict query returns for `req` against `s`. */
  function QueryResult(s: Store, req: Request): (order: seq<Task>)
    ensures QueryOrder(s, req, order)
  {
    SortByPriority(Conflicts(s, req))
  }

  /** The table after handling `reqs` one after another, starting from `s`. */
  function Run(s: Store, reqs: seq<Request>): Store
    decreases |reqs|
  {
    if |reqs| == 0 then s
    else Run(Step(s, reqs[0]), reqs[1..])
  }

  /** The delete confirmation is posted only to the delete view, as the delete view's form posts it. */
  predicate Routed(req: Request) {
    req.confirmDelete ==> !ModelForm(req)
  }

  /** Every user's ranking is free of shared priorities. */
  ghost predicate AllRankingsUnique(s: Store) {
    forall u :: UniquePriorities(s, u, None)
  }

  /** One form handled with the database's choices. */
  function Step(s: Store, req: Request): Store {
    FormValid(s, req, QueryResult(s, req), MaxId(s) + 1)
  }

  /**
   A create or update the handler claims keeps ids distinct and every user's
   priorities unique, for every row order the conflict query may return and
   every unused id the database may assign.
   */
  lemma WriteKeepsRankingsUnique(s: Store, req: Request, order: seq<Task>, freshId: TaskId)
    requires Claiming(req)
    requires QueryOrder(s, req, order) && FreshFor(s, req, freshId)
    requires DistinctIds(s) && AllRankingsUnique(s)
    ensures var r := FormValid(s, req, order, freshId);
            DistinctIds(r) && AllRankingsUnique(r)
  {
    var r := FormValid(s, req, order, freshId);
    assert DistinctIds(r) by {
      ExactPlacement(s, req, order, freshId);
    }
    assert UniquePriorities(r, req.user, None) by {
      assert UniquePriorities(s, req.user, None);
      UniqueLeavingOneAside(s, req.user, req.instance.id);
      UniquenessPreserved(s, req, order, freshId);
    }
    OtherUsersUntouched(s, req, order, freshId);
    CombineRankings(s, r, req.user);
  }

  /** A table whose one changed ranking is unique, and whose other rankings stay unique when they were, has all rankings unique. */
  lemma CombineRankings(s: Store, r: Store, user: UserId)
    requires AllRankingsUnique(s) && UniquePriorities(r, user, None)
    requires forall u :: u != user && UniquePriorities(s, u, None) ==> UniquePriorities(r, u, None)
    ensures AllRankingsUnique(r)
  {
    forall u ensures UniquePriorities(r, u, None) {
      if u != user {
        assert UniquePriorities(s, u, None);
      }
    }
  }

  /**
   One handled form keeps ids distinct and every user's priorities unique,
   whichever view it reaches, as long as the delete confirmation reaches only
   the delete view; for every row order the conflict query may return and
   every unused id the database may assign.
   */
  lemma StepKeepsRankingsUnique(s: Store, req: Request, order: seq<Task>, freshId: TaskId)
    requires Routed(req)
    requires QueryOrder(s, req, order) && FreshFor(s, req, freshId)
    requires DistinctIds(s) && AllRankingsUnique(s)
    ensures var r := FormValid(s, req, order, freshId);
            DistinctIds(r) && AllRankingsUnique(r)
  {
    if req.confirmDelete {
      DeleteSkip(s, req, order, freshId);
    } else if ModelForm(req) {
      WriteKeepsRankingsUnique(s, req, order, freshId);
    }
  }

  /**
   Uniqueness as an invariant: from a table with distinct ids and unique
   priorities for every user, any sequence of forms posted to the create,
   update and delete views, with the delete confirmation only at the delete
   view, leaves a table with the same two properties. Here the database's
   choices are the ones `Step` fixes.
   */
  lemma {:induction false} RunKeepsRankingsUnique(s: Store, reqs: seq<Request>)
    requires forall i :: 0 <= i < |reqs| ==> Routed(reqs[i])
    requires DistinctIds(s) && AllRankingsUnique(s)
    ensures DistinctIds(Run(s, reqs)) && AllRankingsUnique(Run(s, reqs))
    decreases |reqs|
  {
    if |reqs| > 0 {
      StepKeepsRankingsUnique(s, reqs[0], QueryResult(s, reqs[0]), MaxId(s) + 1);
      assert forall i :: 0 <= i < |reqs[1..]| ==> reqs[1..][i] == reqs[i + 1];
      RunKeepsRankingsUnique(Step(s, reqs[0]), reqs[1..]);
    }
  }
}
