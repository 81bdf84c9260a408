// src/views/helpers.js: the sorts and date predicates the list views share.
//
// `localeCompare` is modelled as the code-unit order `Text.StrLe`, a total
// order like the collation it stands for.
module ViewHelpers {
  import opened Wrappers
  import opened JsValues
  import Dates
  import Text
  import Seqs
  import TaskModel

  type Task = TaskModel.Task

  /** One section handed to `TaskList.renderSections`. */
  datatype Section = Section(title: Option<string>, tasks: seq<Task>, emptyMessage: Option<string>)

  /** `parseDate(task.dueAt)?.getTime() ?? Number.POSITIVE_INFINITY`. */
  datatype Moment = At(ms: int) | Never

  function DueMoment(c: Dates.Clock, t: Task): (r: Moment)
    ensures r.At? <==> Dates.ParseDate(c, t.dueAt).Some?
    ensures r.At? ==> r.ms == Dates.ParseDate(c, t.dueAt).value
  {
    match Dates.ParseDate(c, t.dueAt)
    case None => Never
    case Some(ms) => At(ms)
  }

  /** `aTime < bTime`, with `Never` as positive infinity. */
  predicate Earlier(a: Moment, b: Moment)
  {
    a.At? && (b.Never? || a.ms < b.ms)
  }

  /**
   * `cmp(a, b) <= 0` for `sortByPriorityAndTime`'s comparator: higher
   * priority first, then earlier due time, then title.
   */
  function PriorityTimeLe(c: Dates.Clock): (Task, Task) -> bool
  {
    (a: Task, b: Task) =>
      if a.priority != b.priority then a.priority > b.priority
      else if DueMoment(c, a) != DueMoment(c, b) then Earlier(DueMoment(c, a), DueMoment(c, b))
      else Text.StrLe(a.title, b.title)
  }

  lemma EarlierTotal(a: Moment, b: Moment)
    requires a != b
    ensures Earlier(a, b) != Earlier(b, a)
  {
  }

  /** The comparator is consistent: a total preorder. */
  lemma PriorityTimePreorder(c: Dates.Clock)
    ensures Seqs.TotalPreorder(PriorityTimeLe(c))
  {
    var le := PriorityTimeLe(c);
    Text.StrLeTotalOrder();
    forall x, y
      ensures le(x, y) || le(y, x)
    {
      if x.priority == y.priority && DueMoment(c, x) != DueMoment(c, y) {
        EarlierTotal(DueMoment(c, x), DueMoment(c, y));
      }
    }
    forall x, y, z | le(x, y) && le(y, z)
      ensures le(x, z)
    {
      var mx, my, mz := DueMoment(c, x), DueMoment(c, y), DueMoment(c, z);
      if x.priority == y.priority == z.priority {
        if mx == my == mz {
          assert Text.StrLe(x.title, y.title) && Text.StrLe(y.title, z.title);
        } else if mx == mz {
          EarlierTotal(mx, my);
          assert false;
        }
      }
    }
  }

  /** `sortByPriorityAndTime(tasks)`: a sorted copy; the input is a value and stays as it was. */
  function SortByPriorityAndTime(c: Dates.Clock, tasks: seq<Task>): (r: seq<Task>)
    ensures multiset(r) == multiset(tasks)
    ensures |r| == |tasks|
  {
    Seqs.Sort(tasks, PriorityTimeLe(c))
  }

  /**
   * The result is a permutation of the input; a task never follows one of
   * lower priority; within a priority dated tasks come first, earliest first,
   * and undated or unparsable ones last; equal times go by title.
   */
  lemma SortByPriorityAndTimeSpec(c: Dates.Clock, tasks: seq<Task>, i: int, j: int)
    requires 0 <= i < j < |tasks|
    ensures multiset(SortByPriorityAndTime(c, tasks)) == multiset(tasks)
    ensures var r := SortByPriorityAndTime(c, tasks);
            && r[i].priority >= r[j].priority
            && (r[i].priority == r[j].priority && DueMoment(c, r[j]).At? ==>
                  DueMoment(c, r[i]).At? && DueMoment(c, r[i]).ms <= DueMoment(c, r[j]).ms)
            && (r[i].priority == r[j].priority && DueMoment(c, r[i]) == DueMoment(c, r[j]) ==>
                  Text.StrLe(r[i].title, r[j].title))
  {
    PriorityTimePreorder(c);
    Seqs.SortSorted(tasks, PriorityTimeLe(c));
    var r := SortByPriorityAndTime(c, tasks);
    assert PriorityTimeLe(c)(r[i], r[j]);
  }

  const MaxSafeInteger := 9007199254740991

  /** `Number.isFinite(order) ? order : Number.MAX_SAFE_INTEGER`. */
  function ManualKey(t: Task): int
  {
    if t.order.Finite? then t.order.v else MaxSafeInteger
  }

  /** `cmp(a, b) <= 0` for `sortByManualOrder`'s comparator: order, then creation stamp. */
  function ManualLe(): (Task, Task) -> bool
  {
    (a: Task, b: Task) =>
      if ManualKey(a) == ManualKey(b) then Text.StrLe(a.createdAt, b.createdAt)
      else ManualKey(a) < ManualKey(b)
  }

  lemma ManualPreorder()
    ensures Seqs.TotalPreorder(ManualLe())
  {
    Text.StrLeTotalOrder();
  }

  /** `sortByManualOrder(tasks)`: a sorted copy. */
  function SortByManualOrder(tasks: seq<Task>): (r: seq<Task>)
    ensures multiset(r) == multiset(tasks)
    ensures |r| == |tasks|
  {
    Seqs.Sort(tasks, ManualLe())
  }

  /**
   * The result is a permutation ordered by `order`, a non-finite order
   * counting as `MAX_SAFE_INTEGER` (so it sorts after every finite order
   * below that), equal orders going by `createdAt`.
   */
  lemma SortByManualOrderSpec(tasks: seq<Task>, i: int, j: int)
    requires 0 <= i < j < |tasks|
    ensures multiset(SortByManualOrder(tasks)) == multiset(tasks)
    ensures var r := SortByManualOrder(tasks);
            && ManualKey(r[i]) <= ManualKey(r[j])
            && (ManualKey(r[i]) == ManualKey(r[j]) ==> Text.StrLe(r[i].createdAt, r[j].createdAt))
            && (!r[i].order.Finite? ==> !r[j].order.Finite? || r[j].order.v >= MaxSafeInteger)
  {
    ManualPreorder();
    Seqs.SortSorted(tasks, ManualLe());
    var r := SortByManualOrder(tasks);
    assert ManualLe()(r[i], r[j]);
  }

  /** An instant before the start of a day lies on an earlier local day, and conversely. */
  lemma BeforeStartOfDay(c: Dates.Clock, due: int, now: int)
    ensures due < Dates.StartOfDay(c, now) <==> Dates.LocalDay(c, due) < Dates.LocalDay(c, now)
  {
    var d := Dates.LocalDay(c, now);
    assert Dates.StartOfDay(c, now) + c.offsetMs == d * Dates.DayMs;
    var e := Dates.LocalDay(c, due);
    assert e * Dates.DayMs <= due + c.offsetMs < (e + 1) * Dates.DayMs;
    if e < d {
      assert (e + 1) * Dates.DayMs <= d * Dates.DayMs;
    } else {
      assert d * Dates.DayMs <= e * Dates.DayMs;
    }
  }

  /**
   * `isTaskOverdue(task)`: an open task whose due date parses and falls on
   * an earlier local day than now (before the start of today).
   */
  function IsTaskOverdue(c: Dates.Clock, t: Task, nowMs: int): (r: bool)
    ensures r <==> !t.IsDone() && Dates.ParseDate(c, t.dueAt).Some?
                   && Dates.LocalDay(c, Dates.ParseDate(c, t.dueAt).value) < Dates.LocalDay(c, nowMs)
  {
    if t.IsDone() then false
    else
      match Dates.ParseDate(c, t.dueAt)
      case None => false
      case Some(due) =>
        BeforeStartOfDay(c, due, nowMs);
        due < Dates.StartOfDay(c, nowMs)
  }

  /** `isTaskDueToday(task)`: an open task whose due date parses and is on today's local day. */
  function IsTaskDueToday(c: Dates.Clock, t: Task, nowMs: int): (r: bool)
    ensures r <==> !t.IsDone() && Dates.ParseDate(c, t.dueAt).Some?
                   && Dates.LocalDay(c, Dates.ParseDate(c, t.dueAt).value) == Dates.LocalDay(c, nowMs)
  {
    if t.IsDone() then false
    else Dates.IsSameDay(c, Dates.ParseDate(c, t.dueAt), Some(nowMs))
  }

  /** No task is both overdue and due today; a done or undated task is neither. */
  lemma OverdueTodayDisjoint(c: Dates.Clock, t: Task, nowMs: int)
    ensures !(IsTaskOverdue(c, t, nowMs) && IsTaskDueToday(c, t, nowMs))
    ensures t.IsDone() || Dates.ParseDate(c, t.dueAt).None? ==>
              !IsTaskOverdue(c, t, nowMs) && !IsTaskDueToday(c, t, nowMs)
  {
  }
}
