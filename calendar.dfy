// src/views/calendar.js: the calendar's scheduling arithmetic.
//
// With HOUR_HEIGHT = 60 a pixel of vertical pointer movement is one minute,
// so drag deltas, durations and start minutes are all whole numbers here.
// Days are local day numbers (see `Dates.LocalDay`); a month is a month
// index, and the host's month arithmetic is the function `monthOf` from a
// day to the index of its month.
module Calendar {
  import opened Wrappers
  import opened JsValues
  import Dates
  import Groups
  import TaskModel

  const HourHeight := 60
  const Quarter := 15
  const MinDuration := 15
  const DayMinutes := 24 * 60
  /** Seven week days times six rows. */
  const GridCells := 7 * 6
  /** Task chips a month cell shows before the `+n…` label. */
  const ChipLimit := 3

  function Min(a: int, b: int): int { if a <= b then a else b }
  function Max(a: int, b: int): int { if a >= b then a else b }
  function Abs(a: int): int { if a < 0 then -a else a }

  predicate IsQuarter(m: int)
  {
    m % Quarter == 0
  }

  // ---------------------------------------------------------------------
  // Snapping and clamping

  /**
   * `snapToQuarter(minutes)`: `Math.round(minutes / 15) * 15`, a multiple of
   * 15 at most 7 minutes away. A whole number of minutes is never exactly
   * half-way between two quarters, so rounding half up never decides.
   */
  function SnapToQuarter(minutes: int): (r: int)
    ensures IsQuarter(r)
    ensures -7 <= r - minutes <= 7
  {
    var q := (minutes + 7) / Quarter;
    assert minutes + 7 == q * Quarter + (minutes + 7) % Quarter;
    q * Quarter
  }

  /** The snapped value is the nearest quarter: every other quarter is strictly farther. */
  lemma SnapIsNearest(minutes: int, other: int)
    requires IsQuarter(other) && other != SnapToQuarter(minutes)
    ensures Abs(other - minutes) > Abs(SnapToQuarter(minutes) - minutes)
  {
    var r := SnapToQuarter(minutes);
    var k := (other - r) / Quarter;
    assert other - r == k * Quarter;
    assert k != 0;
  }

  /** A quarter snaps to itself. */
  lemma SnapQuarterFixed(minutes: int)
    requires IsQuarter(minutes)
    ensures SnapToQuarter(minutes) == minutes
  {
    if SnapToQuarter(minutes) != minutes {
      SnapIsNearest(minutes, minutes);
    }
  }

  /** `clampMinutes(value)`: into [0, 1425], the last start that leaves a quarter. */
  function ClampMinutes(value: int): (r: int)
    ensures 0 <= r <= DayMinutes - MinDuration
    ensures 0 <= value <= DayMinutes - MinDuration ==> r == value
    ensures value < 0 ==> r == 0
    ensures value > DayMinutes - MinDuration ==> r == DayMinutes - MinDuration
  {
    Max(0, Min(DayMinutes - MinDuration, value))
  }

  // ---------------------------------------------------------------------
  // Drag-resizing a block in the week view

  /** A block's start minute and duration while it is being resized. */
  datatype Span = Span(start: int, duration: int)

  /**
   * Bottom handle: the duration follows the pointer, snapped, is at least 15
   * and ends by midnight; the start does not move.
   */
  function BottomDuration(initialStart: int, initialDuration: int, delta: int): (r: int)
    ensures initialStart + r <= DayMinutes
    ensures initialStart <= DayMinutes - MinDuration ==> r >= MinDuration
    ensures initialStart < DayMinutes ==> r >= 1
    ensures var snapped := SnapToQuarter(initialDuration + delta);
            MinDuration <= snapped <= DayMinutes - initialStart ==> r == snapped
  {
    Min(DayMinutes - initialStart, Max(MinDuration, SnapToQuarter(initialDuration + delta)))
  }

  /**
   * Top handle as written: the start follows the pointer, snapped and
   * clamped, capped at both `initialEnd - 15` and 1425, and the duration
   * keeps the end where it was. Nothing keeps the start from going below
   * zero once `initialEnd - 15` is negative.
   */
  function TopDragAsWritten(initialStart: int, initialEnd: int, delta: int): (r: Span)
    ensures r.start + r.duration == initialEnd
    ensures r.start <= initialEnd - MinDuration && r.start <= DayMinutes - MinDuration
    ensures r.duration >= MinDuration
  {
    var maxStart := Min(initialEnd - MinDuration, DayMinutes - MinDuration);
    var start := Min(maxStart, ClampMinutes(SnapToQuarter(initialStart + delta)));
    Span(start, Max(MinDuration, initialEnd - start))
  }

  /**
   * A block starting at midnight with the shortest stored duration (5
   * minutes) ends at minute 5; any move of its top handle, even none at all,
   * puts its start ten minutes before midnight.
   */
  lemma TopDragLeavesDay()
    ensures TopDragAsWritten(0, Min(DayMinutes, 0 + TaskModel.MinDuration), 0) == Span(-10, 15)
  {
  }

  /** Committing that start moves the task to the previous day. */
  lemma TopDragLeavesDayCommit(c: Dates.Clock, due: int)
    ensures Dates.LocalDay(c, CommitDue(c, due, TopDragAsWritten(0, 5, 0).start))
            == Dates.LocalDay(c, due) - 1
  {
    var d := Dates.LocalDay(c, due);
    assert TopDragAsWritten(0, 5, 0).start == -10;
    assert CommitDue(c, due, -10) + c.offsetMs == d * Dates.DayMs - 10 * Dates.MinuteMs;
    assert CommitDue(c, due, -10) + c.offsetMs == (d - 1) * Dates.DayMs + (Dates.DayMs - 10 * Dates.MinuteMs);
  }

  /**
   * Top handle, kept on the block's day: the same rule with the start held
   * at zero or later. Whenever the block ends at minute 15 or later it is the
   * rule as written; otherwise the block becomes the day's first quarter.
   */
  function TopDrag(initialStart: int, initialEnd: int, delta: int): (r: Span)
    ensures 0 <= r.start <= DayMinutes - MinDuration
    ensures r.duration >= MinDuration
    ensures r.start + r.duration >= initialEnd
    ensures initialEnd >= MinDuration ==> r == TopDragAsWritten(initialStart, initialEnd, delta)
    ensures initialEnd >= MinDuration ==> r.start + r.duration == initialEnd && r.start <= initialEnd - MinDuration
    ensures initialEnd < MinDuration ==> r == Span(0, MinDuration)
  {
    var maxStart := Min(initialEnd - MinDuration, DayMinutes - MinDuration);
    var start := Max(0, Min(maxStart, ClampMinutes(SnapToQuarter(initialStart + delta))));
    Span(start, Max(MinDuration, initialEnd - start))
  }

  /** Between its bounds the top handle follows the pointer exactly, to the quarter. */
  lemma TopDragFollowsPointer(initialStart: int, initialEnd: int, delta: int)
    requires var snapped := SnapToQuarter(initialStart + delta);
             0 <= snapped <= initialEnd - MinDuration && snapped <= DayMinutes - MinDuration
    ensures TopDrag(initialStart, initialEnd, delta).start == SnapToQuarter(initialStart + delta)
    ensures IsQuarter(TopDrag(initialStart, initialEnd, delta).start)
  {
  }

  /**
   * The instant a committed start names: `setHours(0, 0, 0, 0)` then
   * `setMinutes(start)` on the block's due date.
   */
  function CommitDue(c: Dates.Clock, due: int, start: int): int
  {
    Dates.StartOfDay(c, due) + start * Dates.MinuteMs
  }

  /** A start before midnight moves the task to an earlier day. */
  lemma CommitDueBeforeDay(c: Dates.Clock, due: int, start: int)
    requires start < 0
    ensures Dates.LocalDay(c, CommitDue(c, due, start)) < Dates.LocalDay(c, due)
  {
    var d := Dates.LocalDay(c, due);
    assert CommitDue(c, due, start) + c.offsetMs == d * Dates.DayMs + start * Dates.MinuteMs;
    assert CommitDue(c, due, start) + c.offsetMs < d * Dates.DayMs;
  }

  /** A start within the day keeps the task on its day, at that minute. */
  lemma CommitDueOnDay(c: Dates.Clock, due: int, start: int)
    requires 0 <= start < DayMinutes
    ensures Dates.LocalDay(c, CommitDue(c, due, start)) == Dates.LocalDay(c, due)
    ensures Dates.MinuteOfDay(c, CommitDue(c, due, start)) == start
  {
    Dates.DayPlusMinutes(c, due, start);
  }

  datatype Handle = Top | Bottom

  /**
   * One drag of a block's handle (`startResizing` and its move and up
   * handlers). The anchor (the block's start, duration, end and the
   * pointer's first position) is fixed when the drag starts; every move is
   * computed from the anchor alone. The top handle follows the rule as
   * written, so its preview start can fall below zero.
   */
  class Resize {
    const handle: Handle
    const due: int
    const initialStart: int
    const initialDuration: int
    const initialEnd: int
    const startY: int
    var previewStart: int
    var previewDuration: int

    ghost predicate Valid()
      reads this
    {
      && 0 <= initialStart < DayMinutes
      && previewStart < DayMinutes
      && (handle == Bottom ==> previewStart == initialStart)
    }

    /**
     * The anchor: the start minute of the parsed due date, the task's
     * duration when it is a finite number (60 otherwise) and the end, cut at
     * midnight.
     */
    constructor(c: Dates.Clock, handle: Handle, due: int, duration: Num, startY: int)
      ensures Valid()
      ensures this.handle == handle && this.due == due && this.startY == startY
      ensures initialStart == Dates.MinuteOfDay(c, due)
      ensures initialDuration == FiniteOr(duration, TaskModel.DefaultDurationMinutes)
      ensures initialEnd == Min(DayMinutes, initialStart + initialDuration)
      ensures previewStart == initialStart && previewDuration == initialDuration
    {
      this.handle := handle;
      this.due := due;
      this.startY := startY;
      var start := Dates.MinuteOfDay(c, due);
      var length := FiniteOr(duration, TaskModel.DefaultDurationMinutes);
      initialStart := start;
      initialDuration := length;
      initialEnd := Min(DayMinutes, start + length);
      previewStart := start;
      previewDuration := length;
    }

    /** `moveHandler`: the preview follows the pointer from the anchor. */
    method Move(clientY: int)
      requires Valid()
      modifies this`previewStart, this`previewDuration
      ensures Valid()
      ensures handle == Bottom ==>
                previewStart == initialStart
                && previewDuration == BottomDuration(initialStart, initialDuration, clientY - startY)
      ensures handle == Top ==> Span(previewStart, previewDuration) == TopDragAsWritten(initialStart, initialEnd, clientY - startY)
      ensures handle == Top && initialEnd >= MinDuration ==>
                Span(previewStart, previewDuration) == TopDrag(initialStart, initialEnd, clientY - startY)
    {
      var delta := clientY - startY;
      if handle == Bottom {
        previewDuration := BottomDuration(initialStart, initialDuration, delta);
      } else {
        var span := TopDragAsWritten(initialStart, initialEnd, delta);
        previewStart := span.start;
        previewDuration := span.duration;
      }
    }

    /**
     * `upHandler`: the update handed to `updateTask`. It always carries the
     * duration; only a top-handle drag also moves `dueAt`, to the preview
     * start counted from the block's local midnight. A start at zero or later
     * stays on the block's day; a negative one lands on an earlier day.
     */
    method PointerUp(c: Dates.Clock) returns (updates: Js)
      requires Valid()
      ensures updates.Object?
      ensures Get(updates, "duration") == Number(Finite(previewDuration))
      ensures handle == Bottom ==> Get(updates, "dueAt") == Undefined
      ensures handle == Top ==> Get(updates, "dueAt") == Str(c.localIso(CommitDue(c, due, previewStart)))
      ensures 0 <= previewStart ==> Dates.LocalDay(c, CommitDue(c, due, previewStart)) == Dates.LocalDay(c, due)
      ensures 0 <= previewStart ==> Dates.MinuteOfDay(c, CommitDue(c, due, previewStart)) == previewStart
      ensures previewStart < 0 ==> Dates.LocalDay(c, CommitDue(c, due, previewStart)) < Dates.LocalDay(c, due)
    {
      if 0 <= previewStart {
        CommitDueOnDay(c, due, previewStart);
      } else {
        CommitDueBeforeDay(c, due, previewStart);
      }
      var fields := map["duration" := Number(Finite(previewDuration))];
      if handle == Top {
        fields := fields["dueAt" := Str(c.localIso(CommitDue(c, due, previewStart)))];
      }
      updates := Object(fields);
    }
  }

  /**
   * Pressing a handle starts a drag only when the task's `dueAt` parses.
   */
  method StartResizing(c: Dates.Clock, handle: Handle, task: TaskModel.Task, startY: int)
    returns (r: Resize?)
    ensures r == null <==> Dates.ParseDate(c, task.dueAt).None?
    ensures r != null ==> fresh(r) && r.Valid() && r.handle == handle
                          && r.due == Dates.ParseDate(c, task.dueAt).value
                          && r.previewStart == r.initialStart == Dates.MinuteOfDay(c, r.due)
  {
    var due := Dates.ParseDate(c, task.dueAt);
    if due.None? {
      return null;
    }
    r := new Resize(c, handle, due.value, task.duration, startY);
  }

  // ---------------------------------------------------------------------
  // The month grid and the week columns

  /**
   * The 42 days a month grid shows for the month whose 1st is the local day
   * `first`: consecutive days starting on the Monday on or before the 1st.
   */
  function GridDates(first: int): (r: seq<int>)
    ensures |r| == GridCells
  {
    seq(GridCells, i => Dates.WeekStart(first) + i)
  }

  /** How many cells of the first row belong to the previous month. */
  function LeadingDays(first: int): (r: int)
    ensures 0 <= r < 7
  {
    (Dates.Weekday(first) + 6) % 7
  }

  /**
   * The 1st sits at index `LeadingDays(first)`; every row starts on a Monday;
   * and all of a month of up to 31 days fits, whatever weekday it starts on.
   */
  lemma GridShape(first: int, length: int)
    requires 0 <= length <= 31
    ensures GridDates(first)[LeadingDays(first)] == first
    ensures forall row :: 0 <= row < 6 ==> Dates.Weekday(GridDates(first)[7 * row]) == 1
    ensures forall d :: first <= d < first + length ==> d in GridDates(first)
  {
    var g := GridDates(first);
    var m := Dates.WeekStart(first);
    forall row | 0 <= row < 6
      ensures Dates.Weekday(g[7 * row]) == 1
    {
      assert g[7 * row] == m + 7 * row;
      assert (m + 7 * row + 4) % 7 == (m + 4) % 7;
    }
    forall d | first <= d < first + length
      ensures d in g
    {
      assert g[d - m] == d;
    }
  }

  /** `buildGridDates(centerDate)`, with `first` the local day of `getStartOfMonth(centerDate)`. */
  method BuildGridDates(first: int) returns (dates: seq<int>)
    ensures dates == GridDates(first)
  {
    var weekStart := (Dates.Weekday(first) + 6) % 7;
    dates := [];
    var index := 0;
    while index < GridCells
      invariant 0 <= index <= GridCells
      invariant |dates| == index
      invariant forall i :: 0 <= i < index ==> dates[i] == Dates.WeekStart(first) + i
    {
      dates := dates + [first + index - weekStart];
      index := index + 1;
    }
  }

  /** The seven days of the week view: Monday to Sunday of the selected date's week. */
  function WeekDays(selected: int): (r: seq<int>)
    ensures |r| == 7
    ensures forall i :: 0 <= i < 7 ==> r[i] == Dates.WeekStart(selected) + i
  {
    seq(7, i => Dates.WeekStart(selected) + i)
  }

  /** The selected date is one of its week's columns, and each column shares that week. */
  lemma WeekDaysContainSelected(selected: int)
    ensures selected in WeekDays(selected)
    ensures forall i :: 0 <= i < 7 ==> Dates.WeekStart(WeekDays(selected)[i]) == Dates.WeekStart(selected)
  {
    var w := WeekDays(selected);
    assert w[selected - Dates.WeekStart(selected)] == selected;
    forall i | 0 <= i < 7
      ensures Dates.WeekStart(w[i]) == Dates.WeekStart(selected)
    {
      Dates.WeekStartOfWeek(selected, i);
    }
  }

  /**
   * The tasks a cell, a week column or the details list shows for a day:
   * `groupByDate` files the tasks under their UTC date keys, and the cell
   * looks itself up by its own local date. A task is shown on the day that
   * its UTC date names, in state order.
   */
  method DayTasks<T>(c: Dates.Clock, items: seq<T>, dueOf: T -> Option<string>, day: int)
    returns (r: seq<T>)
    ensures r == Groups.KeyFilter(items, Dates.UtcKeyOf(c, dueOf), Dates.DayKey(day))
    ensures forall x :: x in r <==>
              x in items && Dates.ParseDate(c, dueOf(x)).Some? && Dates.UtcDay(Dates.ParseDate(c, dueOf(x)).value) == day
  {
    var keys, groups := Dates.GroupByDate(c, items, dueOf);
    r := if Dates.DayKey(day) in groups then groups[Dates.DayKey(day)] else [];
    forall x
      ensures x in r <==>
                x in items && Dates.ParseDate(c, dueOf(x)).Some? && Dates.UtcDay(Dates.ParseDate(c, dueOf(x)).value) == day
    {
      Groups.KeyFilterMembers(items, Dates.UtcKeyOf(c, dueOf), Dates.DayKey(day), x);
    }
  }

  /**
   * The corrected lookup: grouped by the local date, the key the cell looks
   * itself up by, a day shows exactly the tasks due on that local day.
   */
  method DayTasksLocal<T>(c: Dates.Clock, items: seq<T>, dueOf: T -> Option<string>, day: int)
    returns (r: seq<T>)
    ensures r == Groups.KeyFilter(items, Dates.LocalKeyOf(c, dueOf), Dates.DayKey(day))
    ensures forall x :: x in r <==>
              x in items && Dates.ParseDate(c, dueOf(x)).Some? && Dates.LocalDay(c, Dates.ParseDate(c, dueOf(x)).value) == day
  {
    var keys, groups := Dates.GroupByLocalDate(c, items, dueOf);
    r := if Dates.DayKey(day) in groups then groups[Dates.DayKey(day)] else [];
    forall x
      ensures x in r <==>
                x in items && Dates.ParseDate(c, dueOf(x)).Some? && Dates.LocalDay(c, Dates.ParseDate(c, dueOf(x)).value) == day
    {
      Groups.KeyFilterMembers(items, Dates.LocalKeyOf(c, dueOf), Dates.DayKey(day), x);
    }
  }

  /** What a month cell holds: its first chips and the count behind the `+n…` label. */
  datatype Cell<T> = Cell(chips: seq<T>, more: Option<int>)

  /** A month cell shows up to three chips; a `+(n-3)` label appears exactly when there are more. */
  function MonthCell<T>(dayTasks: seq<T>): (r: Cell<T>)
    ensures |r.chips| == Min(|dayTasks|, ChipLimit)
    ensures r.chips == dayTasks[..|r.chips|]
    ensures r.more.Some? <==> |dayTasks| > ChipLimit
    ensures r.more.Some? ==> r.more.value > 0 && |r.chips| + r.more.value == |dayTasks|
  {
    var shown := Min(|dayTasks|, ChipLimit);
    Cell(dayTasks[..shown], if |dayTasks| > ChipLimit then Some(|dayTasks| - ChipLimit) else None)
  }

  // ---------------------------------------------------------------------
  // Pointer positions in a week column

  /**
   * The hover highlight's start for a pointer `minutes` into the day: the
   * quarter containing the position, clamped to [0, 1425].
   */
  function HoverQuarterStart(minutes: int): (r: int)
    ensures IsQuarter(r) && 0 <= r <= DayMinutes - Quarter
    ensures r <= ClampMinutes(minutes) < r + Quarter
  {
    var m := ClampMinutes(minutes);
    var q := m / Quarter;
    assert m == q * Quarter + m % Quarter;
    q * Quarter
  }

  /** The minute a click creates a task at: the position, clamped to [0, 1439]. */
  function ClickMinute(minutes: int): (r: int)
    ensures 0 <= r < DayMinutes
    ensures 0 <= minutes < DayMinutes ==> r == minutes
    ensures minutes < 0 ==> r == 0
    ensures minutes >= DayMinutes ==> r == DayMinutes - 1
  {
    Min(DayMinutes - 1, Max(0, minutes))
  }

  /**
   * A click on a column: with a measurable column and a `createTask`
   * handler, a new task on that day at the clicked minute with the default
   * duration; otherwise nothing is created.
   */
  function ClickPayload(c: Dates.Clock, dayMs: int, minutes: int, hasHeight: bool, canCreate: bool): (r: Option<Js>)
    ensures r.Some? <==> hasHeight && canCreate
    ensures r.Some? ==> Get(r.value, "duration") == Number(Finite(TaskModel.DefaultDurationMinutes))
    ensures r.Some? ==> Get(r.value, "dueAt") == Str(c.localIso(CommitDue(c, dayMs, ClickMinute(minutes))))
  {
    if hasHeight && canCreate then
      Some(Object(map[
        "dueAt" := Str(c.localIso(CommitDue(c, dayMs, ClickMinute(minutes)))),
        "duration" := Number(Finite(TaskModel.DefaultDurationMinutes))]))
    else None
  }

  /** The clicked task falls on the clicked day, at the clicked minute. */
  lemma ClickOnDay(c: Dates.Clock, dayMs: int, minutes: int)
    ensures Dates.LocalDay(c, CommitDue(c, dayMs, ClickMinute(minutes))) == Dates.LocalDay(c, dayMs)
    ensures Dates.MinuteOfDay(c, CommitDue(c, dayMs, ClickMinute(minutes))) == ClickMinute(minutes)
  {
    CommitDueOnDay(c, dayMs, ClickMinute(minutes));
  }

  // ---------------------------------------------------------------------
  // Navigation

  datatype ViewMode = Month | Week

  /** The module variables `viewMode`, `visibleMonth` and `selectedDate`. */
  datatype View = View(mode: ViewMode, visibleMonth: int, selectedDate: int)

  /**
   * The previous (`dir == -1`) or next (`dir == 1`) period: a month in the
   * month view; a week in the week view, whose visible month follows the
   * new selected date.
   */
  function Shifted(v: View, dir: int, monthOf: int -> int): (r: View)
    ensures r.mode == v.mode
    ensures v.mode == Month ==> r.selectedDate == v.selectedDate && r.visibleMonth == v.visibleMonth + dir
    ensures v.mode == Week ==> r.selectedDate == v.selectedDate + 7 * dir && r.visibleMonth == monthOf(r.selectedDate)
  {
    match v.mode
    case Month => v.(visibleMonth := v.visibleMonth + dir)
    case Week =>
      var day := v.selectedDate + 7 * dir;
      View(Week, monthOf(day), day)
  }

  /** In the week view the visible month is the selected date's month. */
  predicate Consistent(v: View, monthOf: int -> int)
  {
    v.mode == Week ==> v.visibleMonth == monthOf(v.selectedDate)
  }

  /** Previous then next, or next then previous, returns to the same view. */
  lemma ShiftBack(v: View, monthOf: int -> int)
    requires Consistent(v, monthOf)
    ensures Shifted(Shifted(v, -1, monthOf), 1, monthOf) == v
    ensures Shifted(Shifted(v, 1, monthOf), -1, monthOf) == v
  {
  }

  class Navigator {
    const monthOf: int -> int
    var mode: ViewMode
    var visibleMonth: int
    var selectedDate: int

    function State(): View
      reads this
    {
      View(mode, visibleMonth, selectedDate)
    }

    ghost predicate Valid()
      reads this
    {
      Consistent(State(), monthOf)
    }

    /** The week view, on today, showing today's month. */
    constructor(monthOf: int -> int, today: int)
      ensures Valid()
      ensures this.monthOf == monthOf
      ensures State() == View(Week, monthOf(today), today)
    {
      this.monthOf := monthOf;
      mode := Week;
      visibleMonth := monthOf(today);
      selectedDate := today;
    }

    /** The `←` button. */
    method Prev()
      requires Valid()
      modifies this
      ensures Valid()
      ensures State() == Shifted(old(State()), -1, monthOf)
    {
      if mode == Month {
        visibleMonth := visibleMonth - 1;
      } else {
        selectedDate := selectedDate - 7;
        visibleMonth := monthOf(selectedDate);
      }
    }

    /** The `→` button. */
    method Next()
      requires Valid()
      modifies this
      ensures Valid()
      ensures State() == Shifted(old(State()), 1, monthOf)
    {
      if mode == Month {
        visibleMonth := visibleMonth + 1;
      } else {
        selectedDate := selectedDate + 7;
        visibleMonth := monthOf(selectedDate);
      }
    }

    /** `selectDate(date)` and the today button: select the day and show its month. */
    method SelectDate(day: int)
      requires Valid()
      modifies this
      ensures Valid()
      ensures State() == View(old(mode), monthOf(day), day)
    {
      selectedDate := day;
      visibleMonth := monthOf(day);
    }

    /**
     * The mode buttons: the current mode changes nothing; switching to the
     * week view brings the visible month back to the selected date's.
     */
    method SetMode(next: ViewMode)
      requires Valid()
      modifies this
      ensures Valid()
      ensures next == old(mode) ==> State() == old(State())
      ensures next != old(mode) ==> mode == next && selectedDate == old(selectedDate)
      ensures next != old(mode) && next == Week ==> visibleMonth == monthOf(selectedDate)
      ensures next != old(mode) && next == Month ==> visibleMonth == old(visibleMonth)
    {
      if mode == next {
        return;
      }
      mode := next;
      if mode == Week {
        visibleMonth := monthOf(selectedDate);
      }
    }
  }
}
