/** The task list the page derives from its state: sorted so that open tasks
    come first and timed tasks run in start order, then optionally narrowed
    to one calendar day; and the calendar's day marker. */
module View {
  import opened Wrappers
  import opened Seqs
  import opened Tasks

  /** The pairwise guarantee of the page's sort comparator for `a` placed
      before `b`: a completed task never precedes an open one, and within
      one group two tasks that both have a start are in start order. */
  predicate MayPrecede(a: Task, b: Task) {
    && !(IsDone(a) && IsPending(b))
    && (IsDone(a) == IsDone(b) && HasStart(a) && HasStart(b) ==> StartKey(a) <= StartKey(b))
  }

  /** Every pair of positions respects the comparator's guarantee. */
  ghost predicate Ordered(s: seq<Task>) {
    Chain(s, MayPrecede)
  }

  /** A legitimate result of sorting `src`: a permutation of it that is ordered. */
  ghost predicate IsSortOf(src: seq<Task>, r: seq<Task>) {
    multiset(r) == multiset(src) && Ordered(r)
  }

  /** Tasks sorted by start followed by tasks without a start keep every
      pair of timed tasks in start order. */
  lemma TimedThenUntimed(timed: seq<Task>, untimed: seq<Task>)
    requires SortedBy(timed, StartKey)
    requires forall t :: t in untimed ==> NoStart(t)
    ensures var r := timed + untimed;
      forall i, j :: 0 <= i < j < |r| && HasStart(r[i]) && HasStart(r[j]) ==> StartKey(r[i]) <= StartKey(r[j])
  {
    var r := timed + untimed;
    forall i, j | 0 <= i < j < |r| && HasStart(r[i]) && HasStart(r[j])
      ensures StartKey(r[i]) <= StartKey(r[j])
    {
      assert r[j] !in untimed;
      assert j < |timed|;
      assert r[i] == timed[i] && r[j] == timed[j];
    }
  }

  /** Sequences with equal multisets have the same members. */
  lemma SameMembers(a: seq<Task>, b: seq<Task>)
    requires multiset(a) == multiset(b)
    ensures forall t :: t in a <==> t in b
  {
    forall t ensures t in a <==> t in b {
      assert t in a <==> t in multiset(a);
      assert t in b <==> t in multiset(b);
    }
  }

  /** Orders one completion group: tasks with a start by ascending start
      (ties kept in list order), then tasks without one in list order. */
  function SortGroup(g: seq<Task>): (r: seq<Task>)
    ensures multiset(r) == multiset(g)
    ensures forall t :: t in r <==> t in g
    ensures forall i, j :: 0 <= i < j < |r| && HasStart(r[i]) && HasStart(r[j]) ==> StartKey(r[i]) <= StartKey(r[j])
  {
    var timed := SortBy(Filter(g, HasStart), StartKey);
    var untimed := Filter(g, NoStart);
    FilterPartition(g, HasStart, NoStart);
    TimedThenUntimed(timed, untimed);
    SameMembers(timed + untimed, g);
    timed + untimed
  }

  /** A group of tasks of one completion state, sorted by start where both
      have one, is ordered. */
  lemma GroupOrdered(g: seq<Task>, done: bool)
    requires forall t :: t in g ==> IsDone(t) == done
    requires forall i, j :: 0 <= i < j < |g| && HasStart(g[i]) && HasStart(g[j]) ==> StartKey(g[i]) <= StartKey(g[j])
    ensures Ordered(g)
  {
    forall i, j | 0 <= i < j < |g| ensures MayPrecede(g[i], g[j]) {
      assert IsDone(g[i]) == done && IsDone(g[j]) == done;
    }
  }

  /** The order the model lists tasks in (`filteredTarefas` before the day
      filter). The source delegates to `Array.prototype.sort`, whose result is
      only pinned down where the comparator is consistent; this picks one
      ordering that meets every pairwise guarantee the comparator gives. A
      group mixing timed and untimed tasks makes the comparator inconsistent,
      and the page may then list two timed tasks out of start order
      (`MixedGroupOrderIsNotForced`). */
  function SortTarefas(ts: seq<Task>): (r: seq<Task>)
    ensures IsSortOf(ts, r)
  {
    var open := SortGroup(Filter(ts, IsPending));
    var done := SortGroup(Filter(ts, IsDone));
    FilterPartition(ts, IsPending, IsDone);
    GroupOrdered(open, false);
    GroupOrdered(done, true);
    ChainAppend(open, done, MayPrecede);
    open + done
  }

  /** Why the real page need not be ordered: with an untimed task between
      two timed open tasks in reverse start order, every adjacent pair
      compares equal, so a sort that keeps already-sorted runs returns the
      list unchanged, yet it is not ordered; the model's sort moves it. */
  lemma MixedGroupOrderIsNotForced(a: Task, u: Task, b: Task)
    requires a.status == Pendente && u.status == Pendente && b.status == Pendente
    requires HasStart(a) && NoStart(u) && HasStart(b) && StartKey(b) < StartKey(a)
    ensures MayPrecede(a, u) && MayPrecede(u, b)
    ensures !Ordered([a, u, b])
    ensures SortTarefas([a, u, b]) != [a, u, b]
  {
    assert !MayPrecede([a, u, b][0], [a, u, b][2]);
    assert !Ordered(SortTarefas([a, u, b])) ==> SortTarefas([a, u, b]) != [a, u, b];
  }

  /** The task starts on calendar day `d` (a task without a start, or with
      an empty one, never does). */
  predicate OnDay(t: Task, d: Date) {
    HasStart(t) && t.horarioInicio.value.day == d
  }

  /** The day filter applied to the sorted list: no selected day keeps the
      list as it is; a selected day keeps, in order, the tasks starting on it. */
  function FilterByDay(sorted: seq<Task>, selected: Option<Date>): (r: seq<Task>)
    ensures selected.None? ==> r == sorted
    ensures selected.Some? ==> Subseq(r, sorted)
    ensures selected.Some? ==> forall t :: t in r <==> t in sorted && OnDay(t, selected.value)
    ensures selected.Some? ==> forall t :: t in r ==> HasStart(t)
    ensures Ordered(sorted) ==> Ordered(r)
  {
    match selected
    case None => sorted
    case Some(d) =>
      var r := Filter(sorted, t => OnDay(t, d));
      assert Ordered(sorted) ==> Ordered(r) by {
        if Ordered(sorted) {
          SubseqChain(r, sorted, MayPrecede);
        }
      }
      r
  }

  /** `filteredTarefas`: the list the page hands to the task list. */
  function Projection(ts: seq<Task>, selected: Option<Date>): seq<Task> {
    FilterByDay(SortTarefas(ts), selected)
  }

  /** The projection is always ordered; without a day it holds every task,
      with a day it holds exactly the tasks (with multiplicity) starting on it. */
  lemma ProjectionContents(ts: seq<Task>, selected: Option<Date>)
    ensures Ordered(Projection(ts, selected))
    ensures selected.None? ==> multiset(Projection(ts, selected)) == multiset(ts)
    ensures selected.Some? ==>
      forall t :: multiset(Projection(ts, selected))[t] ==
        if OnDay(t, selected.value) then multiset(ts)[t] else 0
  {
  }

  /** The views the calendar widget renders tiles for. */
  datatype CalendarView = Month | Year | Decade | Century

  /** `markDaysWithTasks`: whether a calendar tile gets the task marker. */
  function MarkDay(ts: seq<Task>, date: Date, view: CalendarView): (marked: bool)
    ensures marked <==> view == Month && exists t :: t in ts && OnDay(t, date)
  {
    var hasTask := Any(ts, t => OnDay(t, date));
    assert hasTask ==> exists t :: t in ts && OnDay(t, date);
    view == Month && hasTask
  }

  /** A month tile is marked exactly when selecting that day would list
      at least one task. */
  lemma MarkerAgreesWithFilter(ts: seq<Task>, date: Date)
    ensures MarkDay(ts, date, Month) <==> |Projection(ts, Some(date))| > 0
  {
    var p := Projection(ts, Some(date));
    ProjectionContents(ts, Some(date));
    if MarkDay(ts, date, Month) {
      var t :| t in ts && OnDay(t, date);
      assert multiset(ts)[t] > 0;
      assert t in multiset(p);
    }
    if |p| > 0 {
      assert multiset(p)[p[0]] > 0;
      assert p[0] in ts;
    }
  }
}
