/**
 Worked examples of the form handler on small tables of one user (user 7).
 Each example is computed in steps: the conflict query, the walk, and the
 two writes. Each step is a lemma of its own because the solver handles the
 steps cheaply one at a time but not all at once; the example's main lemma
 only chains them.
 */
module Scenarios {
  import opened Tasks
  import opened Ordering
  import opened Reconciler

  function Open(id: TaskId, priority: int): Task {
    Task(id, 7, priority, false, false)
  }

  function Create(priority: int, completed: bool): Request {
    Request(CreateView, 7, false, Draft(None, 7, priority, completed, false))
  }

  // Tasks at 3, 4, 5; a new task at 4. The step lemmas below keep each proof small for the solver.

  lemma ContiguousRunQuery()
    ensures Conflicts([Open(1, 3), Open(2, 4), Open(3, 5)], Create(4, false)) == [Open(2, 4), Open(3, 5)]
  {
  }

  lemma ContiguousRunOrder()
    ensures QueryOrder([Open(1, 3), Open(2, 4), Open(3, 5)], Create(4, false), [Open(2, 4), Open(3, 5)])
  {
    var order := [Open(2, 4), Open(3, 5)];
    assert ArrangedAscending(order, order) by {
      assert Ascending(order);
    }
    ContiguousRunQuery();
  }

  lemma ContiguousRunWalk()
    ensures Cascade([Open(2, 4), Open(3, 5)], 4) == [Open(2, 5), Open(3, 6)]
  {
    var order := [Open(2, 4), Open(3, 5)];
    assert order[1..] == [Open(3, 5)];
    assert Cascade(order[1..][1..], 6) == [];
  }

  lemma ContiguousRunBulk()
    ensures BulkUpdatePriority([Open(1, 3), Open(2, 4), Open(3, 5)], [Open(2, 5), Open(3, 6)])
            == [Open(1, 3), Open(2, 5), Open(3, 6)]
  {
    var bulk := [Open(2, 5), Open(3, 6)];
    assert FindById(bulk, 1) == None;
    assert FindById(bulk, 2) == Some(Open(2, 5));
    assert FindById(bulk[1..], 3) == Some(Open(3, 6));
  }

  lemma ContiguousRunWrites()
    ensures Upsert(BulkUpdatePriority([Open(1, 3), Open(2, 4), Open(3, 5)], [Open(2, 5), Open(3, 6)]), Open(4, 4))
            == [Open(1, 3), Open(2, 5), Open(3, 6), Open(4, 4)]
  {
    ContiguousRunBulk();
    assert 4 !in Ids([Open(1, 3), Open(2, 5), Open(3, 6)]);
  }

  lemma ContiguousRunFresh()
    ensures 4 !in Ids([Open(1, 3), Open(2, 4), Open(3, 5)])
  {
  }

  lemma ContiguousRunHandler()
    ensures QueryOrder([Open(1, 3), Open(2, 4), Open(3, 5)], Create(4, false), [Open(2, 4), Open(3, 5)])
    ensures FormValid([Open(1, 3), Open(2, 4), Open(3, 5)], Create(4, false), [Open(2, 4), Open(3, 5)], 4)
            == Upsert(BulkUpdatePriority([Open(1, 3), Open(2, 4), Open(3, 5)], [Open(2, 5), Open(3, 6)]), Open(4, 4))
  {
    ContiguousRunOrder();
    ContiguousRunWalk();
    assert ShiftBatch(Create(4, false), [Open(2, 4), Open(3, 5)]) == [Open(2, 5), Open(3, 6)];
    ContiguousRunFresh();
    assert SavedTask(Create(4, false), 4) == Open(4, 4);
  }

  /** Tasks at 3, 4, 5; a new task at 4 pushes 4 and 5 up to 5 and 6, and takes 4 itself. */
  lemma ContiguousRunShifts()
    ensures var s := [Open(1, 3), Open(2, 4), Open(3, 5)];
            var req := Create(4, false);
            var order := [Open(2, 4), Open(3, 5)];
            && QueryOrder(s, req, order)
            && FormValid(s, req, order, 4) == [Open(1, 3), Open(2, 5), Open(3, 6), Open(4, 4)]
  {
    ContiguousRunHandler();
    ContiguousRunWrites();
  }

  // Tasks at 3, 6, 7; a new task at 4.

  lemma GapQuery()
    ensures Conflicts([Open(1, 3), Open(2, 6), Open(3, 7)], Create(4, false)) == [Open(2, 6), Open(3, 7)]
  {
  }

  /** Tasks at 3, 6, 7; a new task at 4 finds a gap at once: nothing moves and the batch is empty. */
  lemma GapStopsWalk()
    ensures var s := [Open(1, 3), Open(2, 6), Open(3, 7)];
            var req := Create(4, false);
            var order := [Open(2, 6), Open(3, 7)];
            && QueryOrder(s, req, order)
            && ShiftBatch(req, order) == []
            && FormValid(s, req, order, 4) == s + [Open(4, 4)]
  {
    GapQuery();
    assert 4 !in Ids([Open(1, 3), Open(2, 6), Open(3, 7)]);
  }

  // Tasks A at 3, B at 5, C at 6; B is moved to 3.

  lemma UpdateQuery()
    ensures Conflicts([Open(1, 3), Open(2, 5), Open(3, 6)], Request(UpdateView, 7, false, Draft(Some(2), 7, 3, false, false)))
            == [Open(1, 3), Open(3, 6)]
  {
  }

  lemma UpdateOrder()
    ensures QueryOrder([Open(1, 3), Open(2, 5), Open(3, 6)], Request(UpdateView, 7, false, Draft(Some(2), 7, 3, false, false)),
                       [Open(1, 3), Open(3, 6)])
  {
    var order := [Open(1, 3), Open(3, 6)];
    assert ArrangedAscending(order, order) by {
      assert Ascending(order);
    }
    UpdateQuery();
  }

  lemma UpdateWalk()
    ensures Cascade([Open(1, 3), Open(3, 6)], 3) == [Open(1, 4)]
  {
    var order := [Open(1, 3), Open(3, 6)];
    assert order[1..] == [Open(3, 6)];
  }

  lemma UpdateWrites()
    ensures Upsert(BulkUpdatePriority([Open(1, 3), Open(2, 5), Open(3, 6)], [Open(1, 4)]), Open(2, 3))
            == [Open(1, 4), Open(2, 3), Open(3, 6)]
  {
    var bulk := [Open(1, 4)];
    assert FindById(bulk, 1) == Some(Open(1, 4));
    assert FindById(bulk, 2) == None;
    assert FindById(bulk, 3) == None;
    assert 2 in Ids([Open(1, 4), Open(2, 5), Open(3, 6)]);
  }

  /**
   Tasks A at 3, B at 5, C at 6; B moves to 3. B's old slot does not count as
   a conflict: A goes to 4, C at 6 is above the cursor and stays.
   */
  lemma UpdateVacatesOldSlot()
    ensures var s := [Open(1, 3), Open(2, 5), Open(3, 6)];
            var req := Request(UpdateView, 7, false, Draft(Some(2), 7, 3, false, false));
            var order := [Open(1, 3), Open(3, 6)];
            && QueryOrder(s, req, order)
            && FormValid(s, req, order, 0) == [Open(1, 4), Open(2, 3), Open(3, 6)]
  {
    UpdateOrder();
    UpdateWalk();
    UpdateWrites();
  }

  /** A completed task at an occupied priority is saved beside the open one; both keep that priority. */
  lemma CompletedSharesPriority()
    ensures FormValid([Open(1, 4)], Create(4, true), [], 2) == [Open(1, 4), Task(2, 7, 4, true, false)]
  {
  }

  /**
   B's update form posted with priority 3 and the delete confirmation, beside
   A at 3: the update view saves B as posted without shifting A, so the two
   tasks share priority 3.
   */
  lemma FlaggedUpdateDuplicates()
    ensures var s := [Open(1, 3), Open(2, 5)];
            var req := Request(UpdateView, 7, true, Draft(Some(2), 7, 3, false, false));
            var r := FormValid(s, req, [], 0);
            && UniquePriorities(s, 7, None)
            && r == [Open(1, 3), Open(2, 3)]
            && !UniquePriorities(r, 7, None)
  {
    var r := [Open(1, 3), Open(2, 3)];
    assert Active(r[0], 7) && Active(r[1], 7) && r[0].priority == r[1].priority;
  }
}
