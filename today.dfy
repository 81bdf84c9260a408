// src/views/today.js: the overdue and today sections.
module TodayView {
  import opened Wrappers
  import Dates
  import Seqs
  import opened ViewHelpers

  const OverdueTitle := "Просроченные"
  const TodayTitle := "Сегодня"
  const TodayEmpty := "Нет задач на сегодня. Создайте первую!"

  predicate IsOpen(t: Task)
  {
    !t.IsDone()
  }

  function OverdueAt(c: Dates.Clock, nowMs: int): Task -> bool
  {
    t => IsTaskOverdue(c, t, nowMs)
  }

  function DueTodayAt(c: Dates.Clock, nowMs: int): Task -> bool
  {
    t => IsTaskDueToday(c, t, nowMs)
  }

  /** The open tasks that are overdue, sorted by priority and time. */
  function Overdue(c: Dates.Clock, tasks: seq<Task>, nowMs: int): seq<Task>
  {
    SortByPriorityAndTime(c, Seqs.Filter(Seqs.Filter(tasks, IsOpen), OverdueAt(c, nowMs)))
  }

  /** The open tasks due today, sorted by priority and time. */
  function DueToday(c: Dates.Clock, tasks: seq<Task>, nowMs: int): seq<Task>
  {
    SortByPriorityAndTime(c, Seqs.Filter(Seqs.Filter(tasks, IsOpen), DueTodayAt(c, nowMs)))
  }

  /**
   * The overdue list holds exactly the state's overdue tasks and the today
   * list exactly those due today: no done task, and no task in both.
   */
  lemma TodayLists(c: Dates.Clock, tasks: seq<Task>, nowMs: int, t: Task)
    ensures t in Overdue(c, tasks, nowMs) <==> t in tasks && IsTaskOverdue(c, t, nowMs)
    ensures t in DueToday(c, tasks, nowMs) <==> t in tasks && IsTaskDueToday(c, t, nowMs)
    ensures !(t in Overdue(c, tasks, nowMs) && t in DueToday(c, tasks, nowMs))
    ensures t in Overdue(c, tasks, nowMs) || t in DueToday(c, tasks, nowMs) ==> !t.IsDone()
  {
    var open := Seqs.Filter(tasks, IsOpen);
    Seqs.FilterMembership(tasks, IsOpen, t);
    Seqs.FilterMembership(open, OverdueAt(c, nowMs), t);
    Seqs.FilterMembership(open, DueTodayAt(c, nowMs), t);
    assert t in Overdue(c, tasks, nowMs) <==> t in multiset(Overdue(c, tasks, nowMs));
    assert t in DueToday(c, tasks, nowMs) <==> t in multiset(DueToday(c, tasks, nowMs));
    OverdueTodayDisjoint(c, t, nowMs);
  }

  /**
   * `renderTodayView`'s sections: the overdue section first, present
   * exactly when it has tasks, then the today section, always present.
   */
  function Sections(c: Dates.Clock, tasks: seq<Task>, nowMs: int): (r: seq<Section>)
    ensures 1 <= |r| <= 2
    ensures r[|r| - 1] == Section(Some(TodayTitle), DueToday(c, tasks, nowMs), Some(TodayEmpty))
    ensures |r| == 2 <==> Overdue(c, tasks, nowMs) != []
    ensures |r| == 2 ==> r[0] == Section(Some(OverdueTitle), Overdue(c, tasks, nowMs), None)
  {
    var overdue := Overdue(c, tasks, nowMs);
    var today := Section(Some(TodayTitle), DueToday(c, tasks, nowMs), Some(TodayEmpty));
    if |overdue| > 0 then [Section(Some(OverdueTitle), overdue, None), today] else [today]
  }
}
