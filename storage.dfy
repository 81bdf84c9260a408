// src/state/storage.js: the persisted state shape, the normalisation of a
// loaded document, the demo data of a fresh install and the debounced save.
// localStorage and JSON are outside the model: a load arrives as a `Stored`
// value, and a save is recorded in the scheduler's `written` log.
module Storage {
  import opened Wrappers
  import opened JsValues
  import Dates
  import TaskModel
  import ProjectModel

  type Task = TaskModel.Task
  type Project = ProjectModel.Project

  /**
   * The `removeProjectBehavior` setting. `normalizeSettings` and
   * `updateSettings` only ever store the two texts; a restored backup's
   * settings are spread in unchecked, so any other value can arrive there.
   */
  datatype RemoveBehavior = MoveToInbox | DeleteWithTasks | OtherBehavior(raw: Js)
  /** The `timeFormat` setting, with any other value a restored backup carries. */
  datatype TimeFormat = H24 | H12 | OtherFormat(raw: Js)
  datatype Settings = Settings(removeProjectBehavior: RemoveBehavior, timeFormat: TimeFormat)

  /** The value a `removeProjectBehavior` setting holds. */
  function BehaviorValue(b: RemoveBehavior): Js
  {
    match b
    case MoveToInbox => Str("move-to-inbox")
    case DeleteWithTasks => Str("delete-with-tasks")
    case OtherBehavior(raw) => raw
  }

  /** A stored `removeProjectBehavior` value, read back. */
  function BehaviorOf(v: Js): (r: RemoveBehavior)
    ensures BehaviorValue(r) == v
  {
    if v == Str("move-to-inbox") then MoveToInbox
    else if v == Str("delete-with-tasks") then DeleteWithTasks
    else OtherBehavior(v)
  }

  /** The value a `timeFormat` setting holds. */
  function FormatValue(f: TimeFormat): Js
  {
    match f
    case H24 => Str("24h")
    case H12 => Str("12h")
    case OtherFormat(raw) => raw
  }

  /** A stored `timeFormat` value, read back. */
  function FormatOf(v: Js): (r: TimeFormat)
    ensures FormatValue(r) == v
  {
    if v == Str("24h") then H24
    else if v == Str("12h") then H12
    else OtherFormat(v)
  }

  /** The canonical setting values: an `Other` never wraps one of the known texts. */
  predicate Canonical(s: Settings)
  {
    && (s.removeProjectBehavior.OtherBehavior? ==>
          s.removeProjectBehavior.raw !in {Str("move-to-inbox"), Str("delete-with-tasks")})
    && (s.timeFormat.OtherFormat? ==> s.timeFormat.raw !in {Str("24h"), Str("12h")})
  }

  /** On canonical settings, reading a value back gives the setting it came from. */
  lemma SettingValuesRoundTrip(s: Settings)
    requires Canonical(s)
    ensures BehaviorOf(BehaviorValue(s.removeProjectBehavior)) == s.removeProjectBehavior
    ensures FormatOf(FormatValue(s.timeFormat)) == s.timeFormat
  {
  }

  datatype AppState = AppState(version: int, projects: seq<Project>, tasks: seq<Task>, settings: Settings)

  const CurrentVersion := 1
  const BaseSettings := Settings(MoveToInbox, H24)
  const BaseState := AppState(CurrentVersion, [], [], BaseSettings)

  // ----- settings

  /**
   * `normalizeSettings(settings = {})`: only the exact text
   * `'delete-with-tasks'` selects deleting, only `'12h'` selects the 12-hour
   * clock. A null argument is not defaulted and reading from it throws.
   */
  function NormalizeSettings(settings: Js): (r: Result<Settings, string>)
    ensures r.Err? <==> settings.Null?
    ensures r.Ok? ==> (r.value.removeProjectBehavior == DeleteWithTasks
                       <==> Get(settings, "removeProjectBehavior") == Str("delete-with-tasks"))
    ensures r.Ok? ==> (r.value.timeFormat == H12 <==> Get(settings, "timeFormat") == Str("12h"))
    ensures r.Ok? ==> (r.value.removeProjectBehavior == MoveToInbox
                       <==> Get(settings, "removeProjectBehavior") != Str("delete-with-tasks"))
    ensures r.Ok? ==> (r.value.timeFormat == H24 <==> Get(settings, "timeFormat") != Str("12h"))
    ensures settings.Undefined? ==> r == Ok(BaseSettings)
  {
    if settings.Null? then Err("cannot read properties of null")
    else
      Ok(Settings(
        if Get(settings, "removeProjectBehavior") == Str("delete-with-tasks") then DeleteWithTasks else MoveToInbox,
        if Get(settings, "timeFormat") == Str("12h") then H12 else H24))
  }

  // ----- loading

  /**
   * A parsed document: whether it is a non-null object (arrays included), its
   * `version` and `settings` values, and its `projects` / `tasks` when they
   * are arrays. Array elements are taken to have the record shape the app
   * writes; the loader does not inspect them beyond `dueAt`.
   */
  datatype RawState = RawState(
    isObject: bool,
    version: Js,
    projects: Option<seq<Project>>,
    tasks: Option<seq<Task>>,
    settings: Js)

  /** One loaded task: a parseable `dueAt` is rewritten in local ISO form. */
  function NormalizeLoadedTask(c: Dates.Clock, t: Task): (r: Task)
    ensures Dates.ParseDate(c, t.dueAt).None? ==> r == t
    ensures Dates.ParseDate(c, t.dueAt).Some? ==>
              r == t.(dueAt := Some(c.localIso(Dates.ParseDate(c, t.dueAt).value)))
  {
    match Dates.ParseDate(c, t.dueAt)
    case None => t
    case Some(ms) => t.(dueAt := Some(c.localIso(ms)))
  }

  /**
   * `normalizeLoadedState(raw)`: anything but a version-1 object gives the
   * default state; otherwise version 1, the arrays (or `[]`), tasks with
   * their due dates re-rendered, and normalised settings. It throws when
   * `settings` is null.
   */
  function NormalizeLoadedState(c: Dates.Clock, raw: RawState, default: AppState): (r: Result<AppState, string>)
    ensures !raw.isObject || raw.version != Number(Finite(1)) ==> r == Ok(default)
    ensures raw.isObject && raw.version == Number(Finite(1)) ==> (r.Err? <==> raw.settings.Null?)
    ensures raw.isObject && r.Ok? && raw.version == Number(Finite(1)) ==>
              && r.value.version == CurrentVersion
              && r.value.projects == raw.projects.UnwrapOr([])
              && |r.value.tasks| == |raw.tasks.UnwrapOr([])|
              && (forall i :: 0 <= i < |r.value.tasks| && Dates.ParseDate(c, raw.tasks.value[i].dueAt).None?
                    ==> r.value.tasks[i] == raw.tasks.value[i])
    ensures raw.isObject && r.Ok? && raw.version == Number(Finite(1)) ==>
              && r.value.settings == NormalizeSettings(raw.settings).value
              && (forall i :: 0 <= i < |r.value.tasks| ==> r.value.tasks[i] == NormalizeLoadedTask(c, raw.tasks.value[i]))
  {
    if !raw.isObject || raw.version != Number(Finite(1)) then Ok(default)
    else
      var tasks := raw.tasks.UnwrapOr([]);
      match NormalizeSettings(raw.settings)
      case Err(e) => Err(e)
      case Ok(settings) =>
        Ok(BaseState.(
          projects := raw.projects.UnwrapOr([]),
          tasks := seq(|tasks|, i requires 0 <= i < |tasks| => NormalizeLoadedTask(c, tasks[i])),
          settings := settings))
  }

  /** What `localStorage` holds for the state key. */
  datatype Stored = NoStorage | Missing | Unparsable | Parsed(raw: RawState)

  /** `loadState()`: the default state unless a stored document normalises without throwing. */
  function LoadState(c: Dates.Clock, stored: Stored, default: AppState): (r: AppState)
    ensures !stored.Parsed? ==> r == default
    ensures stored.Parsed? && NormalizeLoadedState(c, stored.raw, default).Err? ==> r == default
    ensures r.version == CurrentVersion || r == default
    ensures stored.Parsed? && NormalizeLoadedState(c, stored.raw, default).Ok? ==>
              r == NormalizeLoadedState(c, stored.raw, default).value
  {
    match stored
    case Parsed(raw) =>
      (match NormalizeLoadedState(c, raw, default)
       case Ok(s) => s
       case Err(_) => default)
    case _ => default
  }

  // ----- demo data

  datatype Preset = Preset(id: string, name: string, color: string)

  const ProjectPresets: seq<Preset> := [
    Preset("proj-alpha", "Product Alpha", "#EB5757"),
    Preset("proj-growth", "Growth & Marketing", "#2F80ED"),
    Preset("proj-ops", "Operations & Support", "#27AE60"),
    Preset("proj-life", "Personal & Wellness", "#F2C94C")
  ]

  /** `buildDemoProjects()`: one project per preset, ordered `(index + 1) * 1000`. */
  function BuildDemoProjects(nowIso: string): (r: seq<Project>)
    ensures |r| == |ProjectPresets|
    ensures forall i :: 0 <= i < |r| ==> r[i].order == Finite((i + 1) * 1000)
    ensures forall i :: 0 <= i < |r| ==> r[i].id == ProjectPresets[i].id && r[i].name == ProjectPresets[i].name
    ensures forall i :: 0 <= i < |r| ==> r[i].createdAt == r[i].updatedAt == nowIso
    ensures forall i :: 0 <= i < |r| ==> r[i].color.Some? && ProjectModel.IsHexColor(r[i].color.value)
  {
    assert forall i :: 0 <= i < |ProjectPresets| ==> ProjectModel.IsHexColor(ProjectPresets[i].color);
    seq(|ProjectPresets|, i requires 0 <= i < |ProjectPresets| =>
      ProjectModel.Project(ProjectPresets[i].id, ProjectPresets[i].name, Some(ProjectPresets[i].color),
                           Finite((i + 1) * 1000), nowIso, nowIso))
  }

  datatype DemoEntry = DemoEntry(title: string, days: seq<int>, startMinutes: int, duration: int,
                                 priority: int, projectId: string)

  const Schedule: seq<DemoEntry> := [
    DemoEntry("Утренняя синхронизация", [0, 1, 2, 3, 4], 8 * 60 + 15, 30, 3, "proj-ops"),
    DemoEntry("Глубокая работа над фичей", [0, 1, 2, 3, 4], 9 * 60, 180, 2, "proj-alpha"),
    DemoEntry("Обновление дашборда метрик", [0, 2, 4], 12 * 60 + 15, 45, 2, "proj-growth"),
    DemoEntry("Разбор входящих задач", [0, 1, 2, 3, 4], 13 * 60, 30, 1, "proj-ops"),
    DemoEntry("Командные 1:1", [0, 2, 4], 13 * 60 + 45, 90, 3, "proj-ops"),
    DemoEntry("Ланч & нетворкинг", [0, 1, 2, 3, 4], 12 * 60, 45, 1, "proj-life"),
    DemoEntry("Маркетинговые эксперименты", [1, 3], 15 * 60, 120, 2, "proj-growth"),
    DemoEntry("Созвон с дизайном", [1, 3], 17 * 60, 60, 2, "proj-alpha"),
    DemoEntry("Отчёт по итогу дня", [0, 1, 2, 3, 4], 18 * 60, 30, 2, "proj-ops"),
    DemoEntry("Клиентская поддержка", [1, 2, 4], 19 * 60, 60, 1, "proj-ops"),
    DemoEntry("Вечерний спорт", [1, 3, 5], 20 * 60, 60, 2, "proj-life"),
    DemoEntry("Спринт по контенту", [5], 10 * 60, 150, 2, "proj-growth"),
    DemoEntry("Прототип выходного дня", [6], 10 * 60 + 30, 210, 1, "proj-alpha"),
    DemoEntry("Планирование следующей недели", [6], 15 * 60, 120, 2, "proj-ops"),
    DemoEntry("Личное развитие", [5], 15 * 60 + 30, 90, 2, "proj-life")
  ]

  /** The (entry index, day offset) pairs of `schedule`, in the order the nested loops visit them. */
  function Slots(schedule: seq<DemoEntry>): seq<(nat, int)>
  {
    if |schedule| == 0 then []
    else
      var last := |schedule| - 1;
      Slots(schedule[..last]) + seq(|schedule[last].days|, j requires 0 <= j < |schedule[last].days| => (last, schedule[last].days[j]))
  }

  /** The due instant of entry `e` on `dayOffset` days after Monday `weekStartMs`: its start hour and minute that day. */
  function DemoDue(e: DemoEntry, dayOffset: int, weekStartMs: int): int
  {
    weekStartMs + dayOffset * Dates.DayMs + (e.startMinutes / 60) * 60 * Dates.MinuteMs
    + (e.startMinutes % 60) * Dates.MinuteMs
  }

  /** The `k`-th demo task (0-based): entry `e` on `dayOffset` days after Monday `weekStartMs`. */
  function DemoTask(c: Dates.Clock, e: DemoEntry, dayOffset: int, k: nat, weekStartMs: int, nowIso: string,
                    freshId: nat -> string): TaskModel.Task
  {
    var due := DemoDue(e, dayOffset, weekStartMs);
    TaskModel.Task(
      id := freshId(k),
      title := e.title,
      description := "",
      projectId := if e.projectId != "" then Some(e.projectId) else None,
      tags := [],
      dueAt := Some(c.localIso(due)),
      isAllDay := false,
      reminderAt := None,
      priority := if e.priority != 0 then e.priority else 2,
      subtasks := [],
      doneAt := None,
      createdAt := nowIso,
      updatedAt := nowIso,
      order := Finite((k + 1) * 1000),
      duration := Finite(if e.duration != 0 then e.duration else 60))
  }

  /** The demo tasks: the `k`-th slot becomes the `k`-th task. */
  function DemoTasks(c: Dates.Clock, schedule: seq<DemoEntry>, weekStartMs: int, nowIso: string,
                     freshId: nat -> string): seq<TaskModel.Task>
  {
    var slots := Slots(schedule);
    seq(|slots|, k requires 0 <= k < |slots| =>
      if slots[k].0 < |schedule| then DemoTask(c, schedule[slots[k].0], slots[k].1, k, weekStartMs, nowIso, freshId)
      else DemoTask(c, schedule[0], 0, k, weekStartMs, nowIso, freshId))
  }

  lemma {:induction false} SlotsInRange(schedule: seq<DemoEntry>)
    ensures forall k :: 0 <= k < |Slots(schedule)| ==> Slots(schedule)[k].0 < |schedule|
  {
    if |schedule| > 0 {
      SlotsInRange(schedule[..|schedule| - 1]);
    }
  }

  /** Every demo entry belongs to one of the demo projects. */
  lemma ScheduleProjectsKnown()
    ensures forall e :: e in Schedule ==>
              exists i :: 0 <= i < |ProjectPresets| && e.projectId == ProjectPresets[i].id
  {
    forall e | e in Schedule
      ensures exists i :: 0 <= i < |ProjectPresets| && e.projectId == ProjectPresets[i].id
    {
      var i := if e.projectId == "proj-alpha" then 0 else if e.projectId == "proj-growth" then 1
               else if e.projectId == "proj-ops" then 2 else 3;
      assert e.projectId == ProjectPresets[i].id;
    }
  }

  /** Every demo entry names a project. */
  lemma ScheduleProjectsNamed()
    ensures forall e :: e in Schedule ==> e.projectId != ""
  {
    ScheduleProjectsKnown();
    forall e | e in Schedule ensures e.projectId != "" {
      var i :| 0 <= i < |ProjectPresets| && e.projectId == ProjectPresets[i].id;
    }
  }

  /** The demo schedule has 45 (entry, day) pairs. */
  lemma DemoSlotCount()
    ensures |Slots(Schedule)| == 45
  {
    var s := Schedule;
    assert s[..0] == [];
    assert s[..1][..0] == s[..0];
    assert |Slots(s[..1])| == 5;
    assert s[..2][..1] == s[..1];
    assert |Slots(s[..2])| == 10;
    assert s[..3][..2] == s[..2];
    assert |Slots(s[..3])| == 13;
    assert s[..4][..3] == s[..3];
    assert |Slots(s[..4])| == 18;
    assert s[..5][..4] == s[..4];
    assert |Slots(s[..5])| == 21;
    assert s[..6][..5] == s[..5];
    assert |Slots(s[..6])| == 26;
    assert s[..7][..6] == s[..6];
    assert |Slots(s[..7])| == 28;
    assert s[..8][..7] == s[..7];
    assert |Slots(s[..8])| == 30;
    assert s[..9][..8] == s[..8];
    assert |Slots(s[..9])| == 35;
    assert s[..10][..9] == s[..9];
    assert |Slots(s[..10])| == 38;
    assert s[..11][..10] == s[..10];
    assert |Slots(s[..11])| == 41;
    assert s[..12][..11] == s[..11];
    assert |Slots(s[..12])| == 42;
    assert s[..13][..12] == s[..12];
    assert |Slots(s[..13])| == 43;
    assert s[..14][..13] == s[..13];
    assert |Slots(s[..14])| == 44;
    assert s[..15][..14] == s[..14];
    assert |Slots(s[..15])| == 45;
    assert s[..15] == s;
  }

  /**
   * `buildDemoTasks()`: the nested loops over the schedule and its days
   * produce exactly `DemoTasks`, so task `k` has order `(k + 1) * 1000`.
   */
  method BuildDemoTasks(c: Dates.Clock, schedule: seq<DemoEntry>, nowMs: int, freshId: nat -> string)
    returns (tasks: seq<TaskModel.Task>)
    ensures tasks == DemoTasks(c, schedule, DemoWeekStart(c, nowMs), c.localIso(nowMs), freshId)
    ensures forall k :: 0 <= k < |tasks| ==> tasks[k].order == Finite((k + 1) * 1000)
  {
    var weekStart := DemoWeekStart(c, nowMs);
    var nowIso := c.localIso(nowMs);
    tasks := [];
    var order := 0;
    var i := 0;
    SlotsInRange(schedule);
    while i < |schedule|
      invariant 0 <= i <= |schedule|
      invariant order == |tasks|
      invariant DemoPrefix(c, schedule, Slots(schedule[..i]), tasks, weekStart, nowIso, freshId)
    {
      var entry := schedule[i];
      ghost var before := Slots(schedule[..i]);
      var j := 0;
      while j < |entry.days|
        invariant 0 <= j <= |entry.days|
        invariant order == |tasks| == |before| + j
        invariant forall k :: 0 <= k < |before| ==>
                    (before[k].0 < |schedule| &&
                     tasks[k] == DemoTask(c, schedule[before[k].0], before[k].1, k, weekStart, nowIso, freshId))
        invariant forall k :: |before| <= k < |tasks| ==>
                    tasks[k] == DemoTask(c, entry, entry.days[k - |before|], k, weekStart, nowIso, freshId)
      {
        var dayOffset := entry.days[j];
        order := order + 1;
        var t := DemoTask(c, entry, dayOffset, order - 1, weekStart, nowIso, freshId);
        tasks := tasks + [t];
        j := j + 1;
      }
      DemoEntryDone(c, schedule, i, tasks, weekStart, nowIso, freshId);
      i := i + 1;
    }
    assert schedule[..i] == schedule;
    DemoPrefixComplete(c, schedule, tasks, weekStart, nowIso, freshId);
  }

  /** Tasks for all the slots of the schedule are exactly the demo tasks, numbered in order. */
  lemma DemoPrefixComplete(c: Dates.Clock, schedule: seq<DemoEntry>, tasks: seq<TaskModel.Task>,
                           weekStart: int, nowIso: string, freshId: nat -> string)
    requires DemoPrefix(c, schedule, Slots(schedule), tasks, weekStart, nowIso, freshId)
    ensures tasks == DemoTasks(c, schedule, weekStart, nowIso, freshId)
    ensures forall k :: 0 <= k < |tasks| ==> tasks[k].order == Finite((k + 1) * 1000)
  {
  }

  /** The demo tasks built so far are those of the slots `slots`, in order. */
  ghost predicate DemoPrefix(c: Dates.Clock, schedule: seq<DemoEntry>, slots: seq<(nat, int)>, tasks: seq<TaskModel.Task>,
                             weekStart: int, nowIso: string, freshId: nat -> string)
  {
    && |tasks| == |slots|
    && forall k :: 0 <= k < |tasks| ==>
         slots[k].0 < |schedule| && tasks[k] == DemoTask(c, schedule[slots[k].0], slots[k].1, k, weekStart, nowIso, freshId)
  }

  /** After the days of entry `i`, the tasks are those of the slots of the first `i + 1` entries. */
  lemma DemoEntryDone(c: Dates.Clock, schedule: seq<DemoEntry>, i: nat, tasks: seq<TaskModel.Task>,
                      weekStart: int, nowIso: string, freshId: nat -> string)
    requires i < |schedule|
    requires var before := Slots(schedule[..i]);
             && |tasks| == |before| + |schedule[i].days|
             && (forall k :: 0 <= k < |before| ==>
                   before[k].0 < |schedule| && tasks[k] == DemoTask(c, schedule[before[k].0], before[k].1, k, weekStart, nowIso, freshId))
             && (forall k :: |before| <= k < |tasks| ==>
                   tasks[k] == DemoTask(c, schedule[i], schedule[i].days[k - |before|], k, weekStart, nowIso, freshId))
    ensures DemoPrefix(c, schedule, Slots(schedule[..i + 1]), tasks, weekStart, nowIso, freshId)
  {
    var entry := schedule[i];
    var before := Slots(schedule[..i]);
    assert schedule[..i + 1][..i] == schedule[..i];
    var after := Slots(schedule[..i + 1]);
    assert after == before + seq(|entry.days|, j requires 0 <= j < |entry.days| => (i, entry.days[j]));
    forall k | 0 <= k < |tasks|
      ensures after[k].0 < |schedule| && tasks[k] == DemoTask(c, schedule[after[k].0], after[k].1, k, weekStart, nowIso, freshId)
    {
      if k >= |before| {
        assert after[k] == (i, entry.days[k - |before|]);
      } else {
        assert after[k] == before[k];
      }
    }
  }

  /**
   * Demo task `k` carries the title, project and start time of its slot's
   * entry, is open, and, when every entry names a demo project, belongs to
   * one of the demo projects.
   */
  lemma DemoTasksContent(c: Dates.Clock, schedule: seq<DemoEntry>, weekStartMs: int, nowIso: string,
                         freshId: nat -> string)
    requires forall e :: e in schedule ==> e.projectId != ""
    ensures var tasks := DemoTasks(c, schedule, weekStartMs, nowIso, freshId);
            forall k :: 0 <= k < |tasks| ==>
              && k < |Slots(schedule)| && Slots(schedule)[k].0 < |schedule|
              && tasks[k].title == schedule[Slots(schedule)[k].0].title
              && tasks[k].projectId == Some(schedule[Slots(schedule)[k].0].projectId)
              && tasks[k].dueAt == Some(c.localIso(DemoDue(schedule[Slots(schedule)[k].0], Slots(schedule)[k].1, weekStartMs)))
              && tasks[k].doneAt.None?
  {
    var tasks := DemoTasks(c, schedule, weekStartMs, nowIso, freshId);
    var slots := Slots(schedule);
    SlotsInRange(schedule);
    forall k | 0 <= k < |tasks|
      ensures && k < |slots| && slots[k].0 < |schedule|
              && tasks[k].title == schedule[slots[k].0].title
              && tasks[k].projectId == Some(schedule[slots[k].0].projectId)
              && tasks[k].dueAt == Some(c.localIso(DemoDue(schedule[slots[k].0], slots[k].1, weekStartMs)))
              && tasks[k].doneAt.None?
    {
      assert schedule[slots[k].0] in schedule;
    }
  }

  /** When every entry names a demo project, every demo task belongs to a demo project. */
  lemma DemoTasksInProjects(c: Dates.Clock, schedule: seq<DemoEntry>, weekStartMs: int, nowIso: string,
                            freshId: nat -> string)
    requires forall e :: e in schedule ==> exists i :: 0 <= i < |ProjectPresets| && e.projectId == ProjectPresets[i].id
    ensures forall k :: 0 <= k < |DemoTasks(c, schedule, weekStartMs, nowIso, freshId)| ==>
              exists i :: 0 <= i < |BuildDemoProjects(nowIso)|
                          && DemoTasks(c, schedule, weekStartMs, nowIso, freshId)[k].projectId == Some(BuildDemoProjects(nowIso)[i].id)
  {
    var tasks := DemoTasks(c, schedule, weekStartMs, nowIso, freshId);
    var projects := BuildDemoProjects(nowIso);
    forall e | e in schedule ensures e.projectId != "" {
      var i :| 0 <= i < |ProjectPresets| && e.projectId == ProjectPresets[i].id;
    }
    DemoTasksContent(c, schedule, weekStartMs, nowIso, freshId);
    var slots := Slots(schedule);
    forall k | 0 <= k < |tasks|
      ensures exists i :: 0 <= i < |projects| && tasks[k].projectId == Some(projects[i].id)
    {
      var e := schedule[slots[k].0];
      assert e in schedule;
      var i :| 0 <= i < |ProjectPresets| && e.projectId == ProjectPresets[i].id;
      assert projects[i].id == e.projectId;
    }
  }

  /** Local midnight of the Monday of the current week. */
  function DemoWeekStart(c: Dates.Clock, nowMs: int): int
  {
    Dates.StartOfDay(c, nowMs) - ((Dates.Weekday(Dates.LocalDay(c, nowMs)) + 6) % 7) * Dates.DayMs
  }

  /** `getDefaultState()`: the base state with the demo projects and tasks. */
  function GetDefaultState(c: Dates.Clock, nowMs: int, freshId: nat -> string): (r: AppState)
    ensures r.version == CurrentVersion && r.settings == BaseSettings
    ensures |r.projects| == 4 && |r.tasks| == 45
    ensures forall i :: 0 <= i < |r.projects| ==>
              r.projects[i].id == ProjectPresets[i].id && r.projects[i].name == ProjectPresets[i].name
    ensures forall k :: 0 <= k < |r.tasks| ==> r.tasks[k].order == Finite((k + 1) * 1000)
    ensures forall k :: 0 <= k < |r.tasks| ==>
              && k < |Slots(Schedule)| && Slots(Schedule)[k].0 < |Schedule|
              && r.tasks[k].title == Schedule[Slots(Schedule)[k].0].title
              && r.tasks[k].projectId == Some(Schedule[Slots(Schedule)[k].0].projectId)
              && r.tasks[k].dueAt == Some(c.localIso(DemoDue(Schedule[Slots(Schedule)[k].0], Slots(Schedule)[k].1,
                                                             DemoWeekStart(c, nowMs))))
              && r.tasks[k].doneAt.None?
  {
    DemoSlotCount();
    ScheduleProjectsNamed();
    DemoTasksContent(c, Schedule, DemoWeekStart(c, nowMs), c.localIso(nowMs), freshId);
    AppState(CurrentVersion, BuildDemoProjects(c.localIso(nowMs)),
             DemoTasks(c, Schedule, DemoWeekStart(c, nowMs), c.localIso(nowMs), freshId), BaseSettings)
  }

  /** Every task of the default state belongs to one of its projects. */
  lemma DefaultTasksHaveProjects(c: Dates.Clock, nowMs: int, freshId: nat -> string)
    ensures var r := GetDefaultState(c, nowMs, freshId);
            forall k :: 0 <= k < |r.tasks| ==>
              exists i :: 0 <= i < |r.projects| && r.tasks[k].projectId == Some(r.projects[i].id)
  {
    var r := GetDefaultState(c, nowMs, freshId);
    ScheduleProjectsKnown();
    DemoTasksInProjects(c, Schedule, DemoWeekStart(c, nowMs), c.localIso(nowMs), freshId);
    assert r.projects == BuildDemoProjects(c.localIso(nowMs));
    assert r.tasks == DemoTasks(c, Schedule, DemoWeekStart(c, nowMs), c.localIso(nowMs), freshId);
    forall k | 0 <= k < |r.tasks|
      ensures exists i :: 0 <= i < |r.projects| && r.tasks[k].projectId == Some(r.projects[i].id)
    {
      assert k < |DemoTasks(c, Schedule, DemoWeekStart(c, nowMs), c.localIso(nowMs), freshId)|;
      var i :| 0 <= i < |BuildDemoProjects(c.localIso(nowMs))|
               && DemoTasks(c, Schedule, DemoWeekStart(c, nowMs), c.localIso(nowMs), freshId)[k].projectId
                  == Some(BuildDemoProjects(c.localIso(nowMs))[i].id);
      assert r.projects[i] == BuildDemoProjects(c.localIso(nowMs))[i];
    }
  }

  // ----- debounced save

  /**
   * The module variables of `scheduleSave` and the timers it arms. `armed`
   * maps a live timer handle to the state its callback captured; `written`
   * logs what reached `localStorage`.
   */
  class SaveScheduler {
    var pendingState: Option<AppState>
    var saveTimer: Option<nat>
    var armed: map<nat, AppState>
    var nextHandle: nat
    var written: seq<AppState>

    /** At most one timer is live, it is the one `saveTimer` names, and a snapshot is pending for it. */
    predicate Valid()
      reads this
    {
      && (forall h :: h in armed ==> saveTimer == Some(h) && h < nextHandle)
      && (armed != map[] ==> pendingState.Some?)
    }

    constructor()
      ensures Valid()
      ensures pendingState == None && saveTimer == None && armed == map[] && written == []
    {
      pendingState := None;
      saveTimer := None;
      armed := map[];
      nextHandle := 1;
      written := [];
    }

    /**
     * `scheduleSave(state)`: the snapshot becomes pending and any live timer
     * is cancelled; with storage available one new timer is armed.
     */
    method ScheduleSave(state: AppState, hasStorage: bool)
      requires Valid()
      modifies this
      ensures Valid()
      ensures pendingState == Some(state)
      ensures hasStorage ==> armed == map[old(nextHandle) := state] && saveTimer == Some(old(nextHandle))
      ensures !hasStorage ==> armed == map[] && saveTimer == old(saveTimer)
      ensures nextHandle >= old(nextHandle) && written == old(written)
    {
      pendingState := Some(state);
      if saveTimer.Some? {
        armed := armed - {saveTimer.value};
      }
      assert armed == map[];
      if !hasStorage {
        return;
      }
      saveTimer := Some(nextHandle);
      armed := map[nextHandle := state];
      nextHandle := nextHandle + 1;
    }

    /** The timer callback: writes the latest pending snapshot (unless the write throws). */
    method Fire(h: nat, writeFails: bool)
      requires Valid() && h in armed
      modifies this
      ensures Valid()
      ensures armed == map[]
      ensures !writeFails ==> written == old(written) + [old(pendingState).value]
      ensures writeFails ==> written == old(written)
      ensures pendingState == old(pendingState) && saveTimer == old(saveTimer)
    {
      var snapshot := pendingState.UnwrapOr(armed[h]);
      armed := map[];
      if !writeFails {
        written := written + [snapshot];
      }
    }
  }

  /** Two saves in a row write only the second snapshot. */
  method SaveTwiceWritesLatest(a: AppState, b: AppState) returns (s: SaveScheduler)
    ensures s.written == [b]
  {
    s := new SaveScheduler();
    s.ScheduleSave(a, true);
    s.ScheduleSave(b, true);
    var h := s.saveTimer.value;
    s.Fire(h, false);
  }
}
