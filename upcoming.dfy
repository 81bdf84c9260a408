// src/views/upcoming.js: open dated tasks of the coming week, one section
// per due date.
module UpcomingView {
  import opened Wrappers
  import Dates
  import Text
  import Seqs
  import Groups
  import TaskModel
  import opened ViewHelpers

  /** The view's heading, "the next 7 days". */
  const Heading := "Ближайшие 7 дней"
  const EmptyMessage := "Нет задач на ближайшую неделю."
  /** The range ends this many days after the start of today. */
  const RangeDays := 6

  /**
   * `isWithinRange(dueAt, startRange, endRange)` as written: the due instant
   * lies between today's local midnight and the midnight six days later,
   * both included. It stops at the start of the seventh day.
   */
  predicate IsWithinRangeAsWritten(c: Dates.Clock, dueAt: Option<string>, nowMs: int)
  {
    match Dates.ParseDate(c, dueAt)
    case None => false
    case Some(due) =>
      var start := Dates.StartOfDay(c, nowMs);
      start <= due <= start + RangeDays * Dates.DayMs
  }

  /**
   * The seven days the heading names: today and the six days after it,
   * each in full (`isWithinNextDays(dueAt, 6)`).
   */
  predicate InNextSevenDays(c: Dates.Clock, dueAt: Option<string>, nowMs: int)
  {
    Dates.IsWithinNextDays(c, dueAt, RangeDays, nowMs)
  }

  /**
   * A task due at 09:00 on the seventh day is one of the seven days the
   * heading names, yet the range as written leaves it out.
   */
  lemma RangeMissesSeventhDay(c: Dates.Clock, dueAt: string, nowMs: int)
    requires dueAt != ""
    requires c.parse(dueAt) == Some(Dates.StartOfDay(c, nowMs) + RangeDays * Dates.DayMs + 9 * 60 * Dates.MinuteMs)
    ensures Dates.LocalDay(c, c.parse(dueAt).value) == Dates.LocalDay(c, nowMs) + RangeDays
    ensures !IsWithinRangeAsWritten(c, Some(dueAt), nowMs)
    ensures InNextSevenDays(c, Some(dueAt), nowMs)
  {
    var d := Dates.LocalDay(c, nowMs);
    var due := c.parse(dueAt).value;
    assert due + c.offsetMs == (d + RangeDays) * Dates.DayMs + 9 * 60 * Dates.MinuteMs;
  }

  /**
   * The range as written is the seven days minus the seventh day after its
   * midnight: everything it lets in is in the seven days, and the seven days
   * hold nothing else except on the last one.
   */
  lemma RangeWithinSevenDays(c: Dates.Clock, dueAt: Option<string>, nowMs: int)
    ensures IsWithinRangeAsWritten(c, dueAt, nowMs) ==> InNextSevenDays(c, dueAt, nowMs)
    ensures InNextSevenDays(c, dueAt, nowMs) && !IsWithinRangeAsWritten(c, dueAt, nowMs) ==>
              Dates.LocalDay(c, Dates.ParseDate(c, dueAt).value) == Dates.LocalDay(c, nowMs) + RangeDays
  {
    match Dates.ParseDate(c, dueAt)
    case None =>
    case Some(due) =>
      var d := Dates.LocalDay(c, nowMs);
      var start := Dates.StartOfDay(c, nowMs);
      assert start + c.offsetMs == d * Dates.DayMs;
      var e := Dates.LocalDay(c, due);
      assert e * Dates.DayMs <= due + c.offsetMs < (e + 1) * Dates.DayMs;
      if start <= due <= start + RangeDays * Dates.DayMs {
        assert d * Dates.DayMs < (e + 1) * Dates.DayMs;
        assert e * Dates.DayMs <= (d + RangeDays) * Dates.DayMs;
      }
      if d <= e <= d + RangeDays && !(start <= due <= start + RangeDays * Dates.DayMs) {
        assert d * Dates.DayMs <= e * Dates.DayMs;
        assert (d + RangeDays) * Dates.DayMs < (e + 1) * Dates.DayMs;
      }
  }

  /**
   * The tasks the view lists: open, with a due date, inside the range as
   * written (from today's midnight to the midnight six days later).
   */
  predicate Listed(c: Dates.Clock, nowMs: int, t: Task)
  {
    !t.IsDone() && t.dueAt.Some? && t.dueAt.value != "" && IsWithinRangeAsWritten(c, t.dueAt, nowMs)
  }

  /** The corrected filter: open, with a due date, on one of the seven days in full. */
  predicate ListedInSevenDays(c: Dates.Clock, nowMs: int, t: Task)
  {
    !t.IsDone() && t.dueAt.Some? && t.dueAt.value != "" && InNextSevenDays(c, t.dueAt, nowMs)
  }

  /**
   * Every task the view lists is one the corrected filter lists; the
   * corrected filter adds only tasks due later on the seventh day.
   */
  lemma ListedWithinCorrected(c: Dates.Clock, nowMs: int, t: Task)
    ensures Listed(c, nowMs, t) ==> ListedInSevenDays(c, nowMs, t)
    ensures ListedInSevenDays(c, nowMs, t) && !Listed(c, nowMs, t) ==>
              Dates.LocalDay(c, Dates.ParseDate(c, t.dueAt).value) == Dates.LocalDay(c, nowMs) + RangeDays
  {
    RangeWithinSevenDays(c, t.dueAt, nowMs);
  }

  function ListedIn(c: Dates.Clock, nowMs: int): Task -> bool
  {
    t => Listed(c, nowMs, t)
  }

  /** `task.dueAt.slice(0, 10)`: the date part of the stored text. */
  function DateKeyOf(t: Task): (r: string)
    ensures |r| <= 10
  {
    match t.dueAt
    case None => ""
    case Some(s) => Text.Take(s, 10)
  }

  datatype DateGroup = DateGroup(date: string, tasks: seq<Task>)

  function GroupDates(groups: seq<DateGroup>): (r: seq<string>)
    ensures |r| == |groups|
    ensures forall i :: 0 <= i < |groups| ==> r[i] == groups[i].date
  {
    seq(|groups|, i requires 0 <= i < |groups| => groups[i].date)
  }

  /** `cmp(a, b) <= 0` for `(a > b ? 1 : -1)`. */
  function KeyLe(): (string, string) -> bool
  {
    (a: string, b: string) => !Text.StrLess(b, a)
  }

  lemma KeyLePreorder()
    ensures Seqs.TotalPreorder(KeyLe())
    ensures forall a, b :: KeyLe()(a, b) <==> Text.StrLe(a, b)
  {
    forall a, b
      ensures KeyLe()(a, b) <==> Text.StrLe(a, b)
    {
      Text.StrLessTrichotomy(a, b);
      if Text.StrLess(a, b) {
        Text.StrLessAsymmetric(a, b);
      }
      if a == b {
        Text.StrLessIrreflexive(a);
      }
    }
    Text.StrLeTotalOrder();
  }

  function Identity(k: string): string
  {
    k
  }

  /** Sorting distinct keys with `KeyLe` puts them in strictly ascending order. */
  lemma SortedKeysAscending(keys: seq<string>, sorted: seq<string>)
    requires forall i, j :: 0 <= i < j < |keys| ==> keys[i] != keys[j]
    requires sorted == Seqs.Sort(keys, KeyLe())
    ensures forall i, j :: 0 <= i < j < |sorted| ==> Text.StrLess(sorted[i], sorted[j])
    ensures forall k :: k in sorted <==> k in keys
  {
    forall k ensures k in sorted <==> k in keys {
      assert k in sorted <==> k in multiset(sorted);
      assert k in keys <==> k in multiset(keys);
    }
    KeyLePreorder();
    Seqs.SortSorted(keys, KeyLe());
    assert Seqs.UniqueIds(keys, Identity);
    Seqs.PermutationKeepsUniqueIds(keys, sorted, Identity);
    forall i, j | 0 <= i < j < |sorted|
      ensures Text.StrLess(sorted[i], sorted[j])
    {
      assert KeyLe()(sorted[i], sorted[j]);
      assert sorted[i] != sorted[j];
    }
  }

  /** The groups in the order of `sorted`, each looked up in the map. */
  function Assemble(sorted: seq<string>, groups: map<string, seq<Task>>): (r: seq<DateGroup>)
    requires forall k :: k in sorted ==> k in groups
    ensures |r| == |sorted| && GroupDates(r) == sorted
    ensures forall i :: 0 <= i < |r| ==> r[i].tasks == groups[sorted[i]]
  {
    seq(|sorted|, i requires 0 <= i < |sorted| => DateGroup(sorted[i], groups[sorted[i]]))
  }

  /**
   * `groupTasksByDate(tasks)`: one group per distinct date key, in ascending
   * key order; each group holds exactly the tasks with that key, in input
   * order, and every task's key has a group.
   */
  method GroupTasksByDate(tasks: seq<Task>) returns (r: seq<DateGroup>)
    ensures forall i, j :: 0 <= i < j < |r| ==> Text.StrLess(r[i].date, r[j].date)
    ensures forall i :: 0 <= i < |r| ==> r[i].tasks == Groups.KeyFilter(tasks, DateKeyOf, r[i].date) && r[i].tasks != []
    ensures forall t :: t in tasks ==> DateKeyOf(t) in GroupDates(r)
  {
    var keys, groups := Groups.GroupBy(tasks, DateKeyOf);
    var sorted := Seqs.Sort(keys, KeyLe());
    SortedKeysAscending(keys, sorted);
    r := Assemble(sorted, groups);
    forall i, j | 0 <= i < j < |r|
      ensures Text.StrLess(r[i].date, r[j].date)
    {
      assert r[i].date == GroupDates(r)[i] == sorted[i];
      assert r[j].date == GroupDates(r)[j] == sorted[j];
    }
    forall i | 0 <= i < |r|
      ensures r[i].tasks == Groups.KeyFilter(tasks, DateKeyOf, r[i].date) && r[i].tasks != []
    {
      assert r[i].date == GroupDates(r)[i] == sorted[i];
    }
    forall t | t in tasks
      ensures DateKeyOf(t) in GroupDates(r)
    {
      Groups.KeyFilterMembers(tasks, DateKeyOf, DateKeyOf(t), t);
    }
  }

  /** One section per group, each sorted by priority and time; with no group, the empty section. */
  function SectionsOf(c: Dates.Clock, groups: seq<DateGroup>): (r: seq<Section>)
    ensures groups == [] ==> r == [Section(None, [], Some(EmptyMessage))]
    ensures groups != [] ==> |r| == |groups|
    ensures groups != [] ==> forall i :: 0 <= i < |r| ==>
              r[i].title == Some(groups[i].date) && multiset(r[i].tasks) == multiset(groups[i].tasks)
    ensures groups != [] ==> forall i :: 0 <= i < |r| ==>
              r[i].tasks == SortByPriorityAndTime(c, groups[i].tasks) && r[i].emptyMessage.None?
  {
    if groups == [] then [Section(None, [], Some(EmptyMessage))]
    else seq(|groups|, i requires 0 <= i < |groups| => Section(Some(groups[i].date), SortByPriorityAndTime(c, groups[i].tasks), None))
  }

  /**
   * `renderUpcomingView`: the listed tasks grouped by date. Every section
   * holds only listed tasks; every listed task is in the section of its date.
   */
  method Sections(c: Dates.Clock, tasks: seq<Task>, nowMs: int) returns (r: seq<Section>, groups: seq<DateGroup>)
    ensures r == SectionsOf(c, groups)
    ensures forall i :: 0 <= i < |groups| ==>
              groups[i].tasks == Groups.KeyFilter(Seqs.Filter(tasks, ListedIn(c, nowMs)), DateKeyOf, groups[i].date)
    ensures forall i, t :: 0 <= i < |groups| && t in groups[i].tasks ==> t in tasks && Listed(c, nowMs, t)
    ensures forall t :: t in tasks && Listed(c, nowMs, t) ==> DateKeyOf(t) in GroupDates(groups)
    ensures forall i, j :: 0 <= i < j < |groups| ==> Text.StrLess(groups[i].date, groups[j].date)
  {
    groups := ListedGroups(c, tasks, nowMs);
    r := SectionsOf(c, groups);
  }

  /** The date groups of the listed tasks. */
  method ListedGroups(c: Dates.Clock, tasks: seq<Task>, nowMs: int) returns (groups: seq<DateGroup>)
    ensures forall i :: 0 <= i < |groups| ==>
              groups[i].tasks == Groups.KeyFilter(Seqs.Filter(tasks, ListedIn(c, nowMs)), DateKeyOf, groups[i].date)
    ensures forall i, t :: 0 <= i < |groups| && t in groups[i].tasks ==> t in tasks && Listed(c, nowMs, t)
    ensures forall t :: t in tasks && Listed(c, nowMs, t) ==> DateKeyOf(t) in GroupDates(groups)
    ensures forall i, j :: 0 <= i < j < |groups| ==> Text.StrLess(groups[i].date, groups[j].date)
  {
    groups := GroupTasksByDate(Seqs.Filter(tasks, ListedIn(c, nowMs)));
    GroupedListed(c, tasks, nowMs, groups);
  }

  /** Groups of the listed tasks hold only listed tasks, and every listed task has its group. */
  lemma GroupedListed(c: Dates.Clock, tasks: seq<Task>, nowMs: int, groups: seq<DateGroup>)
    requires forall i :: 0 <= i < |groups| ==>
               groups[i].tasks == Groups.KeyFilter(Seqs.Filter(tasks, ListedIn(c, nowMs)), DateKeyOf, groups[i].date)
    requires forall t :: t in Seqs.Filter(tasks, ListedIn(c, nowMs)) ==> DateKeyOf(t) in GroupDates(groups)
    ensures forall i, t :: 0 <= i < |groups| && t in groups[i].tasks ==> t in tasks && Listed(c, nowMs, t)
    ensures forall t :: t in tasks && Listed(c, nowMs, t) ==> DateKeyOf(t) in GroupDates(groups)
  {
    var listed := Seqs.Filter(tasks, ListedIn(c, nowMs));
    forall i, t | 0 <= i < |groups| && t in groups[i].tasks
      ensures t in tasks && Listed(c, nowMs, t)
    {
      Groups.KeyFilterMembers(listed, DateKeyOf, groups[i].date, t);
      Seqs.FilterMembership(tasks, ListedIn(c, nowMs), t);
    }
    forall t | t in tasks && Listed(c, nowMs, t)
      ensures DateKeyOf(t) in GroupDates(groups)
    {
      Seqs.FilterMembership(tasks, ListedIn(c, nowMs), t);
    }
  }
}
