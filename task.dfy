// src/models/task.js: the task record and the sanitisers that build and
// update it. `createId()`, the clock's `now` (ISO text) and `Date.now()` are
// parameters.
module TaskModel {
  import opened Wrappers
  import opened JsValues
  import Text
  import Dates
  import Seqs

  const MaxTitle := 200
  const MaxDescription := 10000
  const MaxTag := 30
  const PriorityLow := 1
  const PriorityNormal := 2
  const PriorityHigh := 3
  const DefaultDurationMinutes := 60
  const MinDuration := 5
  const MaxDuration := 24 * 60

  datatype Subtask = Subtask(id: string, title: string, done: bool)

  datatype Task = Task(
    id: string,
    title: string,
    description: string,
    projectId: Option<string>,
    tags: seq<string>,
    dueAt: Option<string>,
    isAllDay: bool,
    reminderAt: Option<string>,
    priority: int,
    subtasks: seq<Subtask>,
    doneAt: Option<string>,
    createdAt: string,
    updatedAt: string,
    order: Num,
    duration: Num)
  {
    /** `!!task.doneAt`. */
    predicate IsDone()
    {
      doneAt.Some? && doneAt.value != ""
    }
  }

  // ----- duration and priority

  function Clamp(lo: int, hi: int, x: int): int
  {
    if x < lo then lo else if x > hi then hi else x
  }

  /** `normalizeDuration(value)`. */
  function NormalizeDuration(value: Js): (r: int)
    ensures MinDuration <= r <= MaxDuration
    ensures (!ToNumber(value).Finite? || ToNumber(value).v <= 0) ==> r == DefaultDurationMinutes
    ensures ToNumber(value).Finite? && ToNumber(value).v > 0 ==> r == Clamp(MinDuration, MaxDuration, ToNumber(value).v)
  {
    var numeric := ToNumber(value);
    if !numeric.Finite? || numeric.v <= 0 then DefaultDurationMinutes
    else
      var rounded := numeric.v;
      if rounded > MaxDuration then MaxDuration else if rounded < MinDuration then MinDuration else rounded
  }

  /** `clampPriority(value)`: the number if it is 1, 2 or 3, otherwise normal. */
  function ClampPriority(value: Js): (r: int)
    ensures r in {PriorityLow, PriorityNormal, PriorityHigh}
    ensures ToNumber(value) in {Finite(1), Finite(2), Finite(3)} ==> Finite(r) == ToNumber(value)
    ensures ToNumber(value) !in {Finite(1), Finite(2), Finite(3)} ==> r == PriorityNormal
  {
    var value := if value.Undefined? then Number(Finite(PriorityNormal)) else value;
    var numeric := ToNumber(value);
    if numeric == Finite(PriorityLow) || numeric == Finite(PriorityNormal) || numeric == Finite(PriorityHigh) then numeric.v
    else PriorityNormal
  }

  // ----- dates

  /** `new Date(value)`, as an instant, for the values a task field can hold. */
  function DateOf(c: Dates.Clock, value: Js): Option<int>
  {
    match value
    case Str(s) => c.parse(s)
    case Number(n) => if n.Finite? && -Dates.MaxTime <= n.v <= Dates.MaxTime then Some(n.v) else None
    case Bool(b) => Some(if b then 1 else 0)
    case _ => None
  }

  /** `normalizeDate(value)`: null for a falsy or invalid date, otherwise its ISO text. */
  function NormalizeDate(c: Dates.Clock, value: Js): (r: Option<string>)
    ensures !Truthy(value) ==> r == None
    ensures Truthy(value) && DateOf(c, value).None? ==> r == None
    ensures r.Some? ==> r.value == c.iso(DateOf(c, value).value)
  {
    if !Truthy(value) then None
    else
      match DateOf(c, value)
      case None => None
      case Some(ms) => Some(c.iso(ms))
  }

  // ----- tags

  /** One tag after `trim().slice(0, MAX_TAG)`; a non-string becomes `''`. */
  function CleanTag(v: Js): (r: string)
    ensures |r| <= MaxTag
    ensures !v.Str? ==> r == ""
    ensures v.Str? ==> |r| == if |Text.Trim(v.s)| <= MaxTag then |Text.Trim(v.s)| else MaxTag
    ensures v.Str? ==> r == Text.Trim(v.s)[..|r|]
  {
    if v.Str? then Text.Take(Text.Trim(v.s), MaxTag) else ""
  }

  function NonBlank(): string -> bool
  {
    t => t != ""
  }

  /** `tags.map(clean).filter(tag => tag.length > 0)`. */
  function CleanTags(items: seq<Js>): (r: seq<string>)
    ensures forall k :: 0 <= k < |r| ==> 0 < |r[k]| <= MaxTag
  {
    var all := seq(|items|, i requires 0 <= i < |items| => CleanTag(items[i]));
    var r := Seqs.Filter(all, NonBlank());
    assert forall k :: 0 <= k < |r| ==> r[k] in multiset(all);
    r
  }

  /** The cleaned tags are exactly the non-empty cleaned forms of the items. */
  lemma CleanTagsMembers(items: seq<Js>, t: string)
    ensures t in CleanTags(items) <==> t != "" && exists i :: 0 <= i < |items| && t == CleanTag(items[i])
  {
    var all := seq(|items|, i requires 0 <= i < |items| => CleanTag(items[i]));
    Seqs.FilterMembership(all, NonBlank(), t);
    assert CleanTags(items) == Seqs.Filter(all, NonBlank());
    if t in all {
      var i :| 0 <= i < |all| && all[i] == t;
      assert t == CleanTag(items[i]);
    }
    if exists i :: 0 <= i < |items| && t == CleanTag(items[i]) {
      var i :| 0 <= i < |items| && t == CleanTag(items[i]);
      assert all[i] == t;
    }
  }

  /** The first tag in `tags` whose lower-case form is `lower`. */
  function FirstCaseless(tags: seq<string>, lower: string): Option<string>
  {
    if |tags| == 0 then None
    else if Text.Lower(tags[0]) == lower then Some(tags[0])
    else FirstCaseless(tags[1..], lower)
  }

  /** The lower-case forms of `tags`. */
  function Lowers(tags: seq<string>): set<string>
  {
    set k | 0 <= k < |tags| :: Text.Lower(tags[k])
  }

  predicate CaselessUnique(tags: seq<string>)
  {
    forall i, j :: 0 <= i < j < |tags| ==> Text.Lower(tags[i]) != Text.Lower(tags[j])
  }

  /**
   * The `seen` filter: keep a tag iff its lower-case form was not seen
   * before. The result is unique case-insensitively and keeps only input
   * tags whose lower-case form is not in `seen`.
   */
  function DedupCaseless(tags: seq<string>, seen: set<string>): (r: seq<string>)
    ensures CaselessUnique(r)
    ensures forall k :: 0 <= k < |r| ==> r[k] in tags && Text.Lower(r[k]) !in seen
  {
    if |tags| == 0 then []
    else
      var lower := Text.Lower(tags[0]);
      assert forall t :: t in tags[1..] ==> t in tags;
      if lower in seen then DedupCaseless(tags[1..], seen)
      else [tags[0]] + DedupCaseless(tags[1..], seen + {lower})
  }

  /** A first tag of another lower-case form is skipped by `FirstCaseless`. */
  lemma FirstCaselessSkip(tags: seq<string>, lower: string)
    requires |tags| > 0 && Text.Lower(tags[0]) != lower
    ensures FirstCaseless(tags, lower) == FirstCaseless(tags[1..], lower)
  {
  }

  /** Each kept tag is the first input tag of its lower-case form. */
  lemma {:induction false} DedupKeepsFirst(tags: seq<string>, seen: set<string>)
    ensures forall t :: t in DedupCaseless(tags, seen) ==> FirstCaseless(tags, Text.Lower(t)) == Some(t)
  {
    if |tags| > 0 {
      var lower := Text.Lower(tags[0]);
      var seen' := if lower in seen then seen else seen + {lower};
      var rest := DedupCaseless(tags[1..], seen');
      DedupKeepsFirst(tags[1..], seen');
      forall t | t in rest ensures FirstCaseless(tags, Text.Lower(t)) == Some(t) {
        assert Text.Lower(t) !in seen';
        FirstCaselessSkip(tags, Text.Lower(t));
      }
      assert DedupCaseless(tags, seen) == if lower in seen then rest else [tags[0]] + rest;
    }
  }

  /** Every input tag whose lower-case form is not in `seen` is represented. */
  lemma {:induction false} DedupCovers(tags: seq<string>, seen: set<string>)
    ensures forall t :: t in tags && Text.Lower(t) !in seen ==> Text.Lower(t) in Lowers(DedupCaseless(tags, seen))
  {
    if |tags| > 0 {
      var lower := Text.Lower(tags[0]);
      var seen' := if lower in seen then seen else seen + {lower};
      var rest := DedupCaseless(tags[1..], seen');
      var r := DedupCaseless(tags, seen);
      assert r == if lower in seen then rest else [tags[0]] + rest;
      assert Lowers(rest) <= Lowers(r) by {
        forall x | x in Lowers(rest) ensures x in Lowers(r) {
          var k :| 0 <= k < |rest| && Text.Lower(rest[k]) == x;
          if lower !in seen {
            assert r[k + 1] == rest[k];
          }
        }
      }
      forall t | t in tags && Text.Lower(t) !in seen ensures Text.Lower(t) in Lowers(r) {
        if Text.Lower(t) == lower {
          assert r[0] == tags[0];
        } else {
          assert t in tags[1..] by {
            assert t != tags[0];
          }
          DedupCovers(tags[1..], seen');
        }
      }
    }
  }

  /**
   * `normalizeTags(tags)`: every kept tag is a cleaned input tag, non-empty
   * and at most 30 characters, unique case-insensitively, and the first
   * cleaned occurrence of its lower-case form; every non-empty cleaned input
   * tag is represented by its lower-case form.
   */
  function NormalizeTags(value: Js): (r: seq<string>)
    ensures !value.Array? ==> r == []
    ensures CaselessUnique(r)
    ensures forall k :: 0 <= k < |r| ==> 0 < |r[k]| <= MaxTag
    ensures value.Array? ==> forall t :: t in r ==>
              t in CleanTags(value.items) && FirstCaseless(CleanTags(value.items), Text.Lower(t)) == Some(t)
    ensures value.Array? ==> forall t :: t in CleanTags(value.items) ==> Text.Lower(t) in Lowers(r)
  {
    if !value.Array? then []
    else
      var tags := CleanTags(value.items);
      DedupKeepsFirst(tags, {});
      DedupCovers(tags, {});
      DedupCaseless(tags, {})
  }

  lemma {:induction false} FirstCaselessMatches(tags: seq<string>, lower: string)
    requires FirstCaseless(tags, lower).Some?
    ensures Text.Lower(FirstCaseless(tags, lower).value) == lower
  {
    if Text.Lower(tags[0]) != lower {
      FirstCaselessMatches(tags[1..], lower);
    }
  }

  // ----- subtasks

  /** One subtask object: id kept when it is a non-empty string, title trimmed and cut, done coerced. */
  function CleanSubtask(item: Js, freshId: string): (r: Subtask)
    ensures |r.title| <= MaxTitle
    ensures r.done == Truthy(Get(item, "done"))
  {
    var id := Get(item, "id");
    var title := Get(item, "title");
    Subtask(
      if id.Str? && id.s != "" then id.s else freshId,
      if title.Str? then Text.Take(Text.Trim(title.s), MaxTitle) else "",
      Truthy(Get(item, "done")))
  }

  /** Which id a cleaned subtask keeps, and that its title is the longest allowed prefix of the trimmed input. */
  lemma CleanSubtaskSpec(item: Js, freshId: string)
    ensures var r := CleanSubtask(item, freshId);
            && (Get(item, "id").Str? && Get(item, "id").s != "" ==> r.id == Get(item, "id").s)
            && (!Truthy(Get(item, "id")) ==> r.id == freshId)
            && (!Get(item, "title").Str? ==> r.title == "")
            && (Get(item, "title").Str? ==>
                  var t := Text.Trim(Get(item, "title").s);
                  && |r.title| == (if |t| <= MaxTitle then |t| else MaxTitle)
                  && r.title == t[..|r.title|])
  {
  }

  predicate ValidSubtask(s: Subtask)
  {
    0 < |s.title| <= MaxTitle
  }

  /** The subtasks of `items[from..]` that keep a title; `freshId(i)` is the id made for item `i`. */
  function CleanSubtasks(items: seq<Js>, from: nat, freshId: nat -> string): (r: seq<Subtask>)
    requires from <= |items|
    ensures forall k :: 0 <= k < |r| ==> ValidSubtask(r[k])
    decreases |items| - from
  {
    if from == |items| then []
    else
      var s := CleanSubtask(items[from], freshId(from));
      var rest := CleanSubtasks(items, from + 1, freshId);
      if s.title == "" then rest else [s] + rest
  }

  /** Every kept subtask is the cleaned form of one of the items. */
  lemma {:induction false} CleanSubtasksSound(items: seq<Js>, from: nat, freshId: nat -> string)
    requires from <= |items|
    ensures forall s :: s in CleanSubtasks(items, from, freshId) ==>
              exists i :: from <= i < |items| && s == CleanSubtask(items[i], freshId(i))
    decreases |items| - from
  {
    if from < |items| {
      var r := CleanSubtasks(items, from, freshId);
      var rest := CleanSubtasks(items, from + 1, freshId);
      var s := CleanSubtask(items[from], freshId(from));
      assert r == if s.title == "" then rest else [s] + rest;
      CleanSubtasksSound(items, from + 1, freshId);
      forall t | t in r ensures exists i :: from <= i < |items| && t == CleanSubtask(items[i], freshId(i)) {
        if t == s {
          assert from < |items| && t == CleanSubtask(items[from], freshId(from));
        } else {
          assert t in rest;
        }
      }
    }
  }

  /** Every item whose cleaned title is not empty is kept. */
  lemma {:induction false} CleanSubtasksComplete(items: seq<Js>, from: nat, freshId: nat -> string)
    requires from <= |items|
    ensures forall i :: from <= i < |items| && CleanSubtask(items[i], freshId(i)).title != "" ==>
              CleanSubtask(items[i], freshId(i)) in CleanSubtasks(items, from, freshId)
    decreases |items| - from
  {
    if from < |items| {
      var r := CleanSubtasks(items, from, freshId);
      var rest := CleanSubtasks(items, from + 1, freshId);
      var s := CleanSubtask(items[from], freshId(from));
      assert r == if s.title == "" then rest else [s] + rest;
      CleanSubtasksComplete(items, from + 1, freshId);
      forall i | from <= i < |items| && CleanSubtask(items[i], freshId(i)).title != ""
        ensures CleanSubtask(items[i], freshId(i)) in r
      {
        if i > from {
          assert CleanSubtask(items[i], freshId(i)) in rest;
        }
      }
    }
  }

  /** `normalizeSubtasks(items)`. */
  function NormalizeSubtasks(value: Js, freshId: nat -> string): (r: seq<Subtask>)
    ensures !value.Array? ==> r == []
    ensures forall k :: 0 <= k < |r| ==> ValidSubtask(r[k])
    ensures value.Array? ==> forall s :: s in r ==>
              exists i :: 0 <= i < |value.items| && s == CleanSubtask(value.items[i], freshId(i))
    ensures value.Array? ==> forall i :: 0 <= i < |value.items| && CleanSubtask(value.items[i], freshId(i)).title != "" ==>
              CleanSubtask(value.items[i], freshId(i)) in r
  {
    if !value.Array? then []
    else
      CleanSubtasksSound(value.items, 0, freshId);
      CleanSubtasksComplete(value.items, 0, freshId);
      CleanSubtasks(value.items, 0, freshId)
  }

  /** The plain object a subtask serialises to, as handlers pass it back in. */
  function SubtaskToJs(s: Subtask): Js
  {
    Object(map["id" := Str(s.id), "title" := Str(s.title), "done" := Bool(s.done)])
  }

  /** A subtask that normalisation leaves as it is. */
  predicate Normal(s: Subtask)
  {
    s.id != "" && s.title != "" && Text.Take(Text.Trim(s.title), MaxTitle) == s.title
  }

  lemma CleanNormalSubtask(s: Subtask, freshId: string)
    requires Normal(s)
    ensures CleanSubtask(SubtaskToJs(s), freshId) == s
  {
    var m := map["id" := Str(s.id), "title" := Str(s.title), "done" := Bool(s.done)];
    assert Get(SubtaskToJs(s), "id") == Str(s.id);
    assert Get(SubtaskToJs(s), "title") == Str(s.title);
    assert Get(SubtaskToJs(s), "done") == Bool(s.done);
  }

  /** The subtasks as the plain objects handlers pass back in. */
  function SubtasksToJs(subs: seq<Subtask>): (r: seq<Js>)
    ensures |r| == |subs|
    ensures forall k :: 0 <= k < |r| ==> r[k] == SubtaskToJs(subs[k])
  {
    seq(|subs|, k requires 0 <= k < |subs| => SubtaskToJs(subs[k]))
  }

  /** Normalising subtasks already in normal form gives them back unchanged. */
  lemma {:induction false} NormalizeSubtasksFixpoint(subs: seq<Subtask>, from: nat, freshId: nat -> string)
    requires from <= |subs|
    requires forall k :: 0 <= k < |subs| ==> Normal(subs[k])
    ensures CleanSubtasks(SubtasksToJs(subs), from, freshId) == subs[from..]
    decreases |subs| - from
  {
    var items := SubtasksToJs(subs);
    if from < |subs| {
      var s := CleanSubtask(items[from], freshId(from));
      assert s == subs[from] by {
        CleanNormalSubtask(subs[from], freshId(from));
      }
      assert CleanSubtasks(items, from, freshId) == [subs[from]] + CleanSubtasks(items, from + 1, freshId) by {
        assert s.title != "";
      }
      NormalizeSubtasksFixpoint(subs, from + 1, freshId);
      Seqs.SliceCons(subs, from);
    }
  }

  // ----- text fields and order

  /** `sanitizeTitle(title)`: trimmed and cut to 200, or an error when nothing is left. */
  function SanitizeTitle(title: Js): (r: Result<string, string>)
    ensures r.Ok? <==> title.Str? && Text.Trim(title.s) != ""
    ensures r.Ok? ==> 0 < |r.value| <= MaxTitle && |r.value| <= |Text.Trim(title.s)| && r.value == Text.Trim(title.s)[..|r.value|]
    ensures r.Ok? && |Text.Trim(title.s)| <= MaxTitle ==> r.value == Text.Trim(title.s)
  {
    var value := if title.Str? then Text.Take(Text.Trim(title.s), MaxTitle) else "";
    if value == "" then Err("task title required") else Ok(value)
  }

  /** `sanitizeDescription(description)`. */
  function SanitizeDescription(description: Js): (r: string)
    ensures |r| <= MaxDescription
    ensures !description.Str? ==> r == ""
    ensures description.Str? ==> |r| <= |description.s| && r == description.s[..|r|]
    ensures description.Str? && |description.s| <= MaxDescription ==> r == description.s
  {
    if !description.Str? then "" else Text.Take(description.s, MaxDescription)
  }

  /** `sanitizeOrder(order)`: a finite number is kept, anything else becomes `Date.now()`. */
  function SanitizeOrder(order: Js, nowMs: int): (r: Num)
    ensures r.Finite?
    ensures order.Number? && order.n.Finite? ==> r == order.n
    ensures !(order.Number? && order.n.Finite?) ==> r == Finite(nowMs)
  {
    if order.Number? && order.n.Finite? then order.n else Finite(nowMs)
  }

  /** `input?.projectId ?? null` for the values a project id can hold. */
  function ProjectIdOf(value: Js): Option<string>
  {
    if value.Str? then Some(value.s) else None
  }

  // ----- the record invariant

  /** What every task built or updated by this module satisfies. */
  predicate ValidTask(t: Task)
  {
    && 0 < |t.title| <= MaxTitle
    && |t.description| <= MaxDescription
    && (forall k :: 0 <= k < |t.tags| ==> 0 < |t.tags[k]| <= MaxTag)
    && CaselessUnique(t.tags)
    && t.priority in {PriorityLow, PriorityNormal, PriorityHigh}
    && (forall k :: 0 <= k < |t.subtasks| ==> ValidSubtask(t.subtasks[k]))
    && t.order.Finite?
    && t.duration.Finite? && MinDuration <= t.duration.v <= MaxDuration
  }

  /**
   * `createTask(input)`. Fails exactly when the title is not a string with
   * something left after trimming; otherwise the task is valid, missing
   * fields take their defaults and both stamps are `now` unless a valid
   * `createdAt` is supplied.
   */
  function CreateTask(c: Dates.Clock, input: Js, now: string, nowMs: int, freshId: string, subtaskIds: nat -> string)
    : (r: Result<Task, string>)
    ensures r.Ok? <==> SanitizeTitle(Get(input, "title")).Ok?
    ensures r.Ok? ==> ValidTask(r.value)
    ensures r.Ok? ==> r.value.updatedAt == now
    ensures r.Ok? && !Truthy(Get(input, "createdAt")) ==> r.value.createdAt == now
    ensures r.Ok? && Nullish(Get(input, "projectId")) ==> r.value.projectId == None
    ensures r.Ok? && Nullish(Get(input, "duration")) ==> r.value.duration == Finite(DefaultDurationMinutes)
    ensures r.Ok? && Get(input, "priority").Undefined? ==> r.value.priority == PriorityNormal
    ensures r.Ok? && !Truthy(Get(input, "id")) ==> r.value.id == freshId
    ensures r.Ok? && !Truthy(Get(input, "doneAt")) ==> !r.value.IsDone()
  {
    match SanitizeTitle(Get(input, "title"))
    case Err(e) => Err(e)
    case Ok(title) =>
      NewTaskDefaults(c, input, title, now, nowMs, freshId, subtaskIds);
      Ok(NewTask(c, input, title, now, nowMs, freshId, subtaskIds))
  }

  /** Fields missing from the input take their defaults. */
  lemma NewTaskDefaults(c: Dates.Clock, input: Js, title: string, now: string, nowMs: int, freshId: string, subtaskIds: nat -> string)
    requires 0 < |title| <= MaxTitle
    ensures var r := NewTask(c, input, title, now, nowMs, freshId, subtaskIds);
            && (Nullish(Get(input, "projectId")) ==> r.projectId == None)
            && (Nullish(Get(input, "duration")) ==> r.duration == Finite(DefaultDurationMinutes))
            && (Get(input, "priority").Undefined? ==> r.priority == PriorityNormal)
            && (!Truthy(Get(input, "id")) ==> r.id == freshId)
            && (!Truthy(Get(input, "doneAt")) ==> !r.IsDone())
  {
  }

  /** The creation stamp: a truthy `createdAt` that normalises to a non-empty date, otherwise `now`. */
  function CreatedAt(c: Dates.Clock, input: Js, now: string): (r: string)
    ensures !Truthy(Get(input, "createdAt")) ==> r == now
    ensures r == now || (Truthy(Get(input, "createdAt")) && NormalizeDate(c, Get(input, "createdAt")) == Some(r) && r != "")
  {
    if Truthy(Get(input, "createdAt")) then
      match NormalizeDate(c, Get(input, "createdAt"))
      case Some(s) => if s != "" then s else now
      case None => now
    else now
  }

  /** The task object `createTask` builds around a sanitised title. */
  function NewTask(c: Dates.Clock, input: Js, title: string, now: string, nowMs: int, freshId: string, subtaskIds: nat -> string)
    : (r: Task)
    requires 0 < |title| <= MaxTitle
    ensures ValidTask(r)
    ensures r.title == title && r.updatedAt == now && r.createdAt == CreatedAt(c, input, now)
  {
    var id := Get(input, "id");
    var duration := Get(input, "duration");
    var description := SanitizeDescription(Get(input, "description"));
    var tags := NormalizeTags(Get(input, "tags"));
    var priority := ClampPriority(Get(input, "priority"));
    var subtasks := NormalizeSubtasks(Get(input, "subtasks"), subtaskIds);
    var order := SanitizeOrder(Get(input, "order"), nowMs);
    var minutes := NormalizeDuration(if Nullish(duration) then Number(Finite(DefaultDurationMinutes)) else duration);
    var r := Task(
      id := if id.Str? && id.s != "" then id.s else freshId,
      title := title,
      description := description,
      projectId := ProjectIdOf(Get(input, "projectId")),
      tags := tags,
      dueAt := NormalizeDate(c, Get(input, "dueAt")),
      isAllDay := Truthy(Get(input, "isAllDay")),
      reminderAt := NormalizeDate(c, Get(input, "reminderAt")),
      priority := priority,
      subtasks := subtasks,
      doneAt := NormalizeDate(c, Get(input, "doneAt")),
      createdAt := CreatedAt(c, input, now),
      updatedAt := now,
      order := order,
      duration := Finite(minutes));
    assert ValidTask(r);
    r
  }

  /** The fields of `a` and `b` other than `updatedAt` agree. */
  predicate SameExceptStamp(a: Task, b: Task)
  {
    a.(updatedAt := b.updatedAt) == b
  }

  /**
   * `updateTask(task, updates)`. A missing task is an error, and so is a
   * truthy title that sanitises to nothing. Otherwise `title`, `tags` and
   * `subtasks` change only when their update is truthy, every other field
   * only when its update is defined, `id` and `createdAt` never, and
   * `updatedAt` is always re-stamped. Validity is preserved.
   */
  function UpdateTask(c: Dates.Clock, task: Option<Task>, updates: Js, now: string, nowMs: int, subtaskIds: nat -> string)
    : (r: Result<Task, string>)
    ensures task.None? ==> r.Err?
    ensures task.Some? ==> (r.Err? <==> Truthy(Get(updates, "title")) && SanitizeTitle(Get(updates, "title")).Err?)
    ensures r.Ok? ==> r.value.id == task.value.id && r.value.createdAt == task.value.createdAt
    ensures r.Ok? ==> r.value.updatedAt == now
    ensures r.Ok? ==> KeepsUnset(task.value, updates, r.value)
    ensures r.Ok? && Truthy(Get(updates, "title")) ==> r.value.title == SanitizeTitle(Get(updates, "title")).value
    ensures r.Ok? ==> AppliesSet(c, updates, nowMs, subtaskIds, r.value)
  {
    match task
    case None => Err("task not found")
    case Some(t) =>
      var title := Get(updates, "title");
      if Truthy(title) && SanitizeTitle(title).Err? then Err(SanitizeTitle(title).error)
      else
        var newTitle := if Truthy(title) then SanitizeTitle(title).value else t.title;
        ApplyUpdatesKeeps(c, t, updates, now, nowMs, subtaskIds);
        ApplyUpdatesSets(c, t, newTitle, updates, now, nowMs, subtaskIds);
        Ok(ApplyUpdates(c, t, newTitle, updates, now, nowMs, subtaskIds))
  }

  /**
   * What `updateTask` keeps: `title`, `tags` and `subtasks` when their update
   * is falsy, every other field when its update is undefined.
   */
  predicate KeepsUnset(t: Task, updates: Js, r: Task)
  {
    && (!Truthy(Get(updates, "title")) ==> r.title == t.title)
    && (!Truthy(Get(updates, "tags")) ==> r.tags == t.tags)
    && (!Truthy(Get(updates, "subtasks")) ==> r.subtasks == t.subtasks)
    && (Get(updates, "description").Undefined? ==> r.description == t.description)
    && (Get(updates, "projectId").Undefined? ==> r.projectId == t.projectId)
    && (Get(updates, "dueAt").Undefined? ==> r.dueAt == t.dueAt)
    && (Get(updates, "isAllDay").Undefined? ==> r.isAllDay == t.isAllDay)
    && (Get(updates, "reminderAt").Undefined? ==> r.reminderAt == t.reminderAt)
    && (Get(updates, "priority").Undefined? ==> r.priority == t.priority)
    && (Get(updates, "doneAt").Undefined? ==> r.doneAt == t.doneAt)
    && (Get(updates, "order").Undefined? ==> r.order == t.order)
    && (Get(updates, "duration").Undefined? ==> r.duration == t.duration)
  }

  /**
   * What `updateTask` changes: `tags` and `subtasks` to their normal form
   * when their update is truthy, every other field to its sanitised update
   * when that is defined.
   */
  predicate AppliesSet(c: Dates.Clock, updates: Js, nowMs: int, subtaskIds: nat -> string, r: Task)
  {
    && (Truthy(Get(updates, "tags")) ==> r.tags == NormalizeTags(Get(updates, "tags")))
    && (Truthy(Get(updates, "subtasks")) ==> r.subtasks == NormalizeSubtasks(Get(updates, "subtasks"), subtaskIds))
    && (!Get(updates, "description").Undefined? ==> r.description == SanitizeDescription(Get(updates, "description")))
    && (!Get(updates, "projectId").Undefined? ==> r.projectId == ProjectIdOf(Get(updates, "projectId")))
    && (!Get(updates, "dueAt").Undefined? ==> r.dueAt == NormalizeDate(c, Get(updates, "dueAt")))
    && (!Get(updates, "isAllDay").Undefined? ==> r.isAllDay == Truthy(Get(updates, "isAllDay")))
    && (!Get(updates, "reminderAt").Undefined? ==> r.reminderAt == NormalizeDate(c, Get(updates, "reminderAt")))
    && (!Get(updates, "priority").Undefined? ==> r.priority == ClampPriority(Get(updates, "priority")))
    && (!Get(updates, "doneAt").Undefined? ==> r.doneAt == NormalizeDate(c, Get(updates, "doneAt")))
    && (!Get(updates, "order").Undefined? ==> r.order == SanitizeOrder(Get(updates, "order"), nowMs))
    && (!Get(updates, "duration").Undefined? ==> r.duration == Finite(NormalizeDuration(Get(updates, "duration"))))
  }

  /** `updates.tags ? normalizeTags(updates.tags) : task.tags`. */
  function UpdatedTags(t: Task, updates: Js): (r: seq<string>)
    ensures !Truthy(Get(updates, "tags")) ==> r == t.tags
    ensures Truthy(Get(updates, "tags")) ==> r == NormalizeTags(Get(updates, "tags"))
  {
    var tags := Get(updates, "tags");
    if Truthy(tags) then NormalizeTags(tags) else t.tags
  }

  /** `updates.subtasks ? normalizeSubtasks(updates.subtasks) : task.subtasks`. */
  function UpdatedSubtasks(t: Task, updates: Js, subtaskIds: nat -> string): (r: seq<Subtask>)
    ensures !Truthy(Get(updates, "subtasks")) ==> r == t.subtasks
    ensures Truthy(Get(updates, "subtasks")) ==> r == NormalizeSubtasks(Get(updates, "subtasks"), subtaskIds)
  {
    var subtasks := Get(updates, "subtasks");
    if Truthy(subtasks) then NormalizeSubtasks(subtasks, subtaskIds) else t.subtasks
  }

  /** `updates[key] !== undefined ? normalizeDate(updates[key]) : current`. */
  function UpdatedDate(c: Dates.Clock, current: Option<string>, updates: Js, key: string): (r: Option<string>)
    ensures Get(updates, key).Undefined? ==> r == current
    ensures !Get(updates, key).Undefined? ==> r == NormalizeDate(c, Get(updates, key))
  {
    var v := Get(updates, key);
    if !v.Undefined? then NormalizeDate(c, v) else current
  }

  /** The spread `{ ...task, field: update ?? task.field, updatedAt }` of `updateTask`. */
  function ApplyUpdates(c: Dates.Clock, t: Task, newTitle: string, updates: Js, now: string, nowMs: int, subtaskIds: nat -> string)
    : (r: Task)
    ensures r.id == t.id && r.createdAt == t.createdAt && r.updatedAt == now && r.title == newTitle
  {
    var description := Get(updates, "description");
    var projectId := Get(updates, "projectId");
    var isAllDay := Get(updates, "isAllDay");
    var priority := Get(updates, "priority");
    var order := Get(updates, "order");
    var duration := Get(updates, "duration");
    t.(
      title := newTitle,
      description := if !description.Undefined? then SanitizeDescription(description) else t.description,
      projectId := if !projectId.Undefined? then ProjectIdOf(projectId) else t.projectId,
      tags := UpdatedTags(t, updates),
      dueAt := UpdatedDate(c, t.dueAt, updates, "dueAt"),
      isAllDay := if !isAllDay.Undefined? then Truthy(isAllDay) else t.isAllDay,
      reminderAt := UpdatedDate(c, t.reminderAt, updates, "reminderAt"),
      priority := if !priority.Undefined? then ClampPriority(priority) else t.priority,
      subtasks := UpdatedSubtasks(t, updates, subtaskIds),
      doneAt := UpdatedDate(c, t.doneAt, updates, "doneAt"),
      order := if !order.Undefined? then SanitizeOrder(order, nowMs) else t.order,
      duration := if !duration.Undefined? then Finite(NormalizeDuration(duration)) else t.duration,
      updatedAt := now)
  }

  /** With the title kept, every field without an update keeps its value. */
  lemma ApplyUpdatesKeeps(c: Dates.Clock, t: Task, updates: Js, now: string, nowMs: int, subtaskIds: nat -> string)
    ensures !Truthy(Get(updates, "title")) ==> KeepsUnset(t, updates, ApplyUpdates(c, t, t.title, updates, now, nowMs, subtaskIds))
  {
    var r := ApplyUpdates(c, t, t.title, updates, now, nowMs, subtaskIds);
    assert r.tags == UpdatedTags(t, updates);
    assert r.subtasks == UpdatedSubtasks(t, updates, subtaskIds);
    assert r.dueAt == UpdatedDate(c, t.dueAt, updates, "dueAt");
    assert r.reminderAt == UpdatedDate(c, t.reminderAt, updates, "reminderAt");
    assert r.doneAt == UpdatedDate(c, t.doneAt, updates, "doneAt");
  }

  /** Every field with an update takes its sanitised value. */
  lemma ApplyUpdatesSets(c: Dates.Clock, t: Task, newTitle: string, updates: Js, now: string, nowMs: int, subtaskIds: nat -> string)
    ensures AppliesSet(c, updates, nowMs, subtaskIds, ApplyUpdates(c, t, newTitle, updates, now, nowMs, subtaskIds))
  {
    var r := ApplyUpdates(c, t, newTitle, updates, now, nowMs, subtaskIds);
    assert r.tags == UpdatedTags(t, updates);
    assert r.subtasks == UpdatedSubtasks(t, updates, subtaskIds);
    assert r.dueAt == UpdatedDate(c, t.dueAt, updates, "dueAt");
    assert r.reminderAt == UpdatedDate(c, t.reminderAt, updates, "reminderAt");
    assert r.doneAt == UpdatedDate(c, t.doneAt, updates, "doneAt");
  }

  /** Updating a valid task gives a valid task. */
  lemma UpdateTaskPreservesValid(c: Dates.Clock, t: Task, updates: Js, now: string, nowMs: int, subtaskIds: nat -> string)
    requires ValidTask(t)
    ensures UpdateTask(c, Some(t), updates, now, nowMs, subtaskIds).Ok? ==>
              ValidTask(UpdateTask(c, Some(t), updates, now, nowMs, subtaskIds).value)
  {
  }

  /** An empty update changes nothing but the stamp. */
  lemma EmptyUpdateOnlyRestamps(c: Dates.Clock, t: Task, now: string, nowMs: int, subtaskIds: nat -> string)
    ensures UpdateTask(c, Some(t), Undefined, now, nowMs, subtaskIds) == Ok(t.(updatedAt := now))
    ensures UpdateTask(c, Some(t), Object(map[]), now, nowMs, subtaskIds) == Ok(t.(updatedAt := now))
  {
  }

  /** An update holding only `subtasks` replaces them with their normal form and re-stamps. */
  lemma SubtasksOnlyUpdate(c: Dates.Clock, t: Task, items: seq<Js>, now: string, nowMs: int, subtaskIds: nat -> string)
    ensures UpdateTask(c, Some(t), Object(map["subtasks" := Array(items)]), now, nowMs, subtaskIds)
              == Ok(t.(subtasks := NormalizeSubtasks(Array(items), subtaskIds), updatedAt := now))
  {
    var u := Object(map["subtasks" := Array(items)]);
    assert "title" != "subtasks";
    assert Get(u, "title") == Undefined;
    SubtasksOnlyApply(c, t, items, now, nowMs, subtaskIds);
  }

  lemma SubtasksOnlyApply(c: Dates.Clock, t: Task, items: seq<Js>, now: string, nowMs: int, subtaskIds: nat -> string)
    ensures ApplyUpdates(c, t, t.title, Object(map["subtasks" := Array(items)]), now, nowMs, subtaskIds)
              == t.(subtasks := NormalizeSubtasks(Array(items), subtaskIds), updatedAt := now)
  {
    var u := Object(map["subtasks" := Array(items)]);
    var r := ApplyUpdates(c, t, t.title, u, now, nowMs, subtaskIds);
    assert "title" != "subtasks" && "tags" != "subtasks" && "description" != "subtasks";
    assert "projectId" != "subtasks" && "dueAt" != "subtasks" && "reminderAt" != "subtasks" && "doneAt" != "subtasks";
    assert "priority"[0] != "subtasks"[0] && "duration"[0] != "subtasks"[0] && "isAllDay"[0] != "subtasks"[0];
    assert "order" != "subtasks";
    assert Get(u, "title").Undefined? && Get(u, "tags").Undefined? && Get(u, "description").Undefined?;
    assert Get(u, "projectId").Undefined? && Get(u, "dueAt").Undefined? && Get(u, "reminderAt").Undefined?;
    assert Get(u, "doneAt").Undefined? && Get(u, "priority").Undefined? && Get(u, "duration").Undefined?;
    assert Get(u, "isAllDay").Undefined? && Get(u, "order").Undefined?;
    ApplyUpdatesKeeps(c, t, u, now, nowMs, subtaskIds);
    assert KeepsUnset(t, u, r);
    assert r.subtasks == UpdatedSubtasks(t, u, subtaskIds);
    assert Get(u, "subtasks") == Array(items);
  }

}
