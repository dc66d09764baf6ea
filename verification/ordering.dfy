/**
 Ascending arrangements of rows by priority: what a query ordered by priority
 may return. The order among rows of equal priority is left open.
 */
module Ordering {
  import opened Tasks

  predicate Ascending(o: seq<Task>) {
    forall i, j :: 0 <= i < j < |o| ==> o[i].priority <= o[j].priority
  }

  /** `o` lists exactly the rows of `c`, each as often as in `c`, by ascending priority. */
  predicate ArrangedAscending(o: seq<Task>, c: seq<Task>) {
    multiset(o) == multiset(c) && Ascending(o)
  }

  lemma AscendingCons(h: Task, o: seq<Task>)
    requires Ascending(o)
    requires forall x :: x in o ==> h.priority <= x.priority
    ensures Ascending([h] + o)
  {
    forall i, j | 0 <= i < j < |[h] + o| ensures ([h] + o)[i].priority <= ([h] + o)[j].priority {
      assert ([h] + o)[j] == o[j - 1];
      if i > 0 {
        assert ([h] + o)[i] == o[i - 1];
      }
    }
  }

  /** Places `t` into the ascending sequence `o`. */
  function Insert(t: Task, o: seq<Task>): (r: seq<Task>)
    requires Ascending(o)
    ensures Ascending(r)
    ensures multiset(r) == multiset(o) + multiset{t}
  {
    if |o| == 0 || t.priority <= o[0].priority then
      [t] + o
    else
      var rest := Insert(t, o[1..]);
      assert o == [o[0]] + o[1..];
      forall x | x in rest ensures o[0].priority <= x.priority {
        assert x in multiset(rest);
        assert x == t || x in o[1..];
      }
      AscendingCons(o[0], rest);
      [o[0]] + rest
  }

  /** An ascending arrangement of `c`; it shows that every sequence of rows has one. */
  function SortByPriority(c: seq<Task>): (o: seq<Task>)
    ensures ArrangedAscending(o, c)
  {
    if |c| == 0 then []
    else
      assert c == [c[0]] + c[1..];
      Insert(c[0], SortByPriority(c[1..]))
  }
}
