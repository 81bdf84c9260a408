// src/utils/notify.js: the notification permission, the choice between a
// native notification and the in-app reminder, and `ReminderManager`, which
// keeps one timer per task with a pending reminder.
//
// Timers are handles: `setTimeout` hands out the next number and records the
// delay it was given, `clearTimeout` adds the handle to `cleared`. `Date.now()`
// is the `nowMs` argument and `new Date(text)` the clock's `parse`.
module Notify {
  import opened Wrappers
  import Dates
  import TaskModel
  import Store

  // ----- permission

  /** `Notification.permission` and the results of `requestPermission()`. */
  datatype Permission = DefaultPermission | Granted | Denied

  /** The module variable `notificationPermission`, with the host's support for `Notification`. */
  class PermissionState {
    var permission: Permission
    const supported: bool

    constructor(supported: bool)
      ensures permission == DefaultPermission && this.supported == supported
    {
      permission := DefaultPermission;
      this.supported := supported;
    }

    /**
     * `canUseNativeNotifications()`: the host supports notifications and
     * either the browser or the cached answer says granted.
     */
    function CanUseNative(browser: Permission): (r: bool)
      reads this
      ensures r <==> supported && (browser == Granted || permission == Granted)
    {
      if !supported then false else browser == Granted || permission == Granted
    }

    /**
     * `ensureNotificationPermission()`: denied without support, granted
     * without asking when either side already granted, otherwise the answer
     * of the prompt, which is cached.
     */
    method EnsurePermission(browser: Permission, answer: Permission) returns (r: Permission)
      modifies this
      ensures permission == r
      ensures !supported ==> r == Denied
      ensures supported && (old(permission) == Granted || browser == Granted) ==> r == Granted
      ensures supported && old(permission) != Granted && browser != Granted ==> r == answer
      ensures supported ==> (r == Granted <==> old(permission) == Granted || browser == Granted || answer == Granted)
    {
      if !supported {
        permission := Denied;
        return permission;
      }
      if permission == Granted || browser == Granted {
        permission := Granted;
        return permission;
      }
      permission := answer;
      r := answer;
    }
  }

  // ----- reminders

  /** What a fired reminder shows: a native notification or the app's `onReminder` banner. */
  datatype Alert = Native(title: string, body: string) | InApp(task: TaskModel.Task)

  const ReminderPrefix := "Напоминание: "
  const DefaultBody := "Пора выполнить задачу."

  /** The native notification for a task: its title after the prefix, its description or the stock text. */
  function NativeAlert(task: TaskModel.Task): (r: Alert)
    ensures r.Native? && r.title == ReminderPrefix + task.title
    ensures task.description != "" ==> r.body == task.description
    ensures task.description == "" ==> r.body == DefaultBody
  {
    Native(ReminderPrefix + task.title, if task.description != "" then task.description else DefaultBody)
  }

  /** The largest delay `setTimeout` takes, 2^31 - 1 milliseconds. */
  const MaxDelay := 2147483647

  /** The timeout for a reminder `delay` milliseconds away: 0 when due, capped at `MaxDelay`. */
  function TimeoutDelay(delay: int): (r: int)
    ensures 0 <= r <= MaxDelay
    ensures delay <= 0 <==> r == 0
    ensures 0 < delay <= MaxDelay ==> r == delay
    ensures delay > MaxDelay ==> r == MaxDelay
  {
    if delay <= 0 then 0 else if delay < MaxDelay then delay else MaxDelay
  }

  /** A task with a reminder to keep: a truthy `reminderAt` and not done. */
  predicate Pending(t: TaskModel.Task)
  {
    t.reminderAt.Some? && t.reminderAt.value != "" && !t.IsDone()
  }

  /** The last pending task in `tasks` with this id, the one `sync` settles on. */
  function LastPending(tasks: seq<TaskModel.Task>, id: string): (r: Option<TaskModel.Task>)
    ensures r.Some? ==> r.value in tasks && r.value.id == id && Pending(r.value)
    ensures r.None? ==> forall k :: 0 <= k < |tasks| ==> tasks[k].id == id ==> !Pending(tasks[k])
  {
    if tasks == [] then None
    else
      var t := tasks[|tasks| - 1];
      if t.id == id && Pending(t) then Some(t) else LastPending(tasks[..|tasks| - 1], id)
  }

  lemma LastPendingSnoc(p: seq<TaskModel.Task>, t: TaskModel.Task, id: string)
    ensures LastPending(p + [t], id) == if t.id == id && Pending(t) then Some(t) else LastPending(p, id)
  {
    assert (p + [t])[..|p|] == p;
  }

  /** With unique ids, a pending task is the last pending one with its id. */
  lemma {:induction false} LastPendingUnique(tasks: seq<TaskModel.Task>, i: nat)
    requires Store.UniqueIds(tasks) && i < |tasks| && Pending(tasks[i])
    ensures LastPending(tasks, tasks[i].id) == Some(tasks[i])
  {
    if i < |tasks| - 1 {
      var p := tasks[..|tasks| - 1];
      assert p[i] == tasks[i];
      LastPendingUnique(p, i);
    }
  }

  /** Every pending task with id `id` in `tasks` asks for the reminder `at`. */
  predicate AllPendingAt(tasks: seq<TaskModel.Task>, id: string, at: string)
  {
    forall k :: 0 <= k < |tasks| && tasks[k].id == id && Pending(tasks[k]) ==> tasks[k].reminderAt == Some(at)
  }

  /** One entry of the timer map. */
  datatype Entry = Entry(timeoutId: nat, reminderAt: string)

  /** The handles of the live timers of a timer map. */
  function Handles(timers: map<string, Entry>): set<nat>
  {
    set id | id in timers :: timers[id].timeoutId
  }

  /**
   * A timer map matching `tasks`: a timer exactly for the ids whose last
   * pending task has a parsable reminder, holding that reminder.
   */
  ghost predicate Matches(c: Dates.Clock, tasks: seq<TaskModel.Task>, timers: map<string, Entry>)
  {
    forall id ::
      && (id in timers <==> LastPending(tasks, id).Some? && c.parse(LastPending(tasks, id).value.reminderAt.value).Some?)
      && (id in timers ==> timers[id].reminderAt == LastPending(tasks, id).value.reminderAt.value)
  }

  /**
   * The effect of one step of `sync`'s first loop on the timer map, next
   * handle, cleared handles and delays: a task that is not pending, or
   * whose timer is set for the same reminder, changes nothing; otherwise the
   * old timer, if any, is cleared and dropped, and a parsable reminder gets
   * a new timer with the next handle.
   */
  ghost predicate Reconciled(c: Dates.Clock, task: TaskModel.Task, nowMs: int,
                             t0: map<string, Entry>, n0: nat, cl0: set<nat>, d0: map<nat, int>,
                             t1: map<string, Entry>, n1: nat, cl1: set<nat>, d1: map<nat, int>)
  {
    if !Pending(task) || (task.id in t0 && t0[task.id].reminderAt == task.reminderAt.value) then
      t1 == t0 && n1 == n0 && cl1 == cl0 && d1 == d0
    else
      && cl1 == cl0 + (if task.id in t0 then {t0[task.id].timeoutId} else {})
      && (c.parse(task.reminderAt.value).None? ==> t1 == t0 - {task.id} && n1 == n0 && d1 == d0)
      && (c.parse(task.reminderAt.value).Some? ==>
            && t1 == t0[task.id := Entry(n0, task.reminderAt.value)]
            && n1 == n0 + 1
            && d1 == d0[n0 := TimeoutDelay(c.parse(task.reminderAt.value).value - nowMs)])
  }

  /**
   * What the first loop of `sync` keeps true after the prefix `p`, against
   * the timer map `timers0` it started from.
   */
  ghost predicate SyncedPrefix(c: Dates.Clock, p: seq<TaskModel.Task>, timers: map<string, Entry>, cleared: set<nat>,
                               timers0: map<string, Entry>)
  {
    SyncedIds(c, p, timers, timers0) && KeptOrCleared(p, timers, cleared, timers0)
  }

  /**
   * An id with a pending task in `p` has a timer exactly when that task's
   * reminder parses, holding that reminder; any other id keeps its timer.
   */
  ghost predicate SyncedIds(c: Dates.Clock, p: seq<TaskModel.Task>, timers: map<string, Entry>, timers0: map<string, Entry>)
  {
    && (forall id :: LastPending(p, id).Some? ==>
          && (id in timers <==> c.parse(LastPending(p, id).value.reminderAt.value).Some?)
          && (id in timers ==> timers[id].reminderAt == LastPending(p, id).value.reminderAt.value))
    && (forall id :: LastPending(p, id).None? ==>
          (id in timers <==> id in timers0) && (id in timers ==> timers[id] == timers0[id]))
  }

  /** A timer every pending task of `p` still asks for is kept; one replaced or dropped is cleared. */
  ghost predicate KeptOrCleared(p: seq<TaskModel.Task>, timers: map<string, Entry>, cleared: set<nat>, timers0: map<string, Entry>)
  {
    && (forall id :: id in timers0 && AllPendingAt(p, id, timers0[id].reminderAt) ==>
          id in timers && timers[id] == timers0[id])
    && (forall id :: id in timers0 && (id !in timers || timers[id] != timers0[id]) ==> timers0[id].timeoutId in cleared)
  }

  /** One reconciled task extends the synced prefix by that task. */
  lemma SyncStep(c: Dates.Clock, p: seq<TaskModel.Task>, task: TaskModel.Task, timers0: map<string, Entry>, nowMs: int,
                 t0: map<string, Entry>, n0: nat, cl0: set<nat>, d0: map<nat, int>,
                 t1: map<string, Entry>, n1: nat, cl1: set<nat>, d1: map<nat, int>)
    requires SyncedPrefix(c, p, t0, cl0, timers0)
    requires forall id :: id in t0 ==> c.parse(t0[id].reminderAt).Some?
    requires Reconciled(c, task, nowMs, t0, n0, cl0, d0, t1, n1, cl1, d1)
    ensures SyncedPrefix(c, p + [task], t1, cl1, timers0)
  {
    SyncStepIds(c, p, task, timers0, nowMs, t0, n0, cl0, d0, t1, n1, cl1, d1);
    SyncStepKept(c, p, task, timers0, nowMs, t0, n0, cl0, d0, t1, n1, cl1, d1);
  }

  lemma SyncStepIds(c: Dates.Clock, p: seq<TaskModel.Task>, task: TaskModel.Task, timers0: map<string, Entry>, nowMs: int,
                    t0: map<string, Entry>, n0: nat, cl0: set<nat>, d0: map<nat, int>,
                    t1: map<string, Entry>, n1: nat, cl1: set<nat>, d1: map<nat, int>)
    requires SyncedIds(c, p, t0, timers0)
    requires forall id :: id in t0 ==> c.parse(t0[id].reminderAt).Some?
    requires Reconciled(c, task, nowMs, t0, n0, cl0, d0, t1, n1, cl1, d1)
    ensures SyncedIds(c, p + [task], t1, timers0)
  {
    forall id ensures LastPending(p + [task], id) == if task.id == id && Pending(task) then Some(task) else LastPending(p, id) {
      LastPendingSnoc(p, task, id);
    }
  }

  lemma SyncStepKept(c: Dates.Clock, p: seq<TaskModel.Task>, task: TaskModel.Task, timers0: map<string, Entry>, nowMs: int,
                     t0: map<string, Entry>, n0: nat, cl0: set<nat>, d0: map<nat, int>,
                     t1: map<string, Entry>, n1: nat, cl1: set<nat>, d1: map<nat, int>)
    requires KeptOrCleared(p, t0, cl0, timers0)
    requires Reconciled(c, task, nowMs, t0, n0, cl0, d0, t1, n1, cl1, d1)
    ensures KeptOrCleared(p + [task], t1, cl1, timers0)
  {
    forall id | id in timers0 && AllPendingAt(p + [task], id, timers0[id].reminderAt)
      ensures AllPendingAt(p, id, timers0[id].reminderAt)
    {
      assert forall k :: 0 <= k < |p| ==> (p + [task])[k] == p[k];
    }
    if Pending(task) {
      forall id | id in timers0 && AllPendingAt(p + [task], id, timers0[id].reminderAt) && id == task.id
        ensures task.reminderAt == Some(timers0[id].reminderAt)
      {
        assert (p + [task])[|p|] == task;
      }
    }
  }

  /**
   * One turn of `sync`'s first loop: the collected ids and the synced
   * prefix grow by the task, and a map that already matched stays put.
   */
  lemma ReconcileAllStep(c: Dates.Clock, tasks: seq<TaskModel.Task>, i: nat, nowMs: int,
                         timers0: map<string, Entry>, settled: bool, ids0: set<string>, ids1: set<string>,
                         t0: map<string, Entry>, n0: nat, cl0: set<nat>, d0: map<nat, int>,
                         t1: map<string, Entry>, n1: nat, cl1: set<nat>, d1: map<nat, int>)
    requires i < |tasks|
    requires forall id :: id in ids0 <==> LastPending(tasks[..i], id).Some?
    requires ids1 == if Pending(tasks[i]) then ids0 + {tasks[i].id} else ids0
    requires SyncedPrefix(c, tasks[..i], t0, cl0, timers0)
    requires forall id :: id in t0 ==> c.parse(t0[id].reminderAt).Some?
    requires Reconciled(c, tasks[i], nowMs, t0, n0, cl0, d0, t1, n1, cl1, d1)
    requires settled ==> Matches(c, tasks, t0) && Store.UniqueIds(tasks)
    ensures forall id :: id in ids1 <==> LastPending(tasks[..i + 1], id).Some?
    ensures SyncedPrefix(c, tasks[..i + 1], t1, cl1, timers0)
    ensures settled ==> t1 == t0 && n1 == n0
  {
    var prefix, task := tasks[..i], tasks[i];
    assert tasks[..i + 1] == prefix + [task];
    forall id ensures id in ids1 <==> LastPending(prefix + [task], id).Some? {
      LastPendingSnoc(prefix, task, id);
    }
    SyncStep(c, prefix, task, timers0, nowMs, t0, n0, cl0, d0, t1, n1, cl1, d1);
    if settled {
      SettledStep(c, tasks, i, nowMs, t0, n0, cl0, d0, t1, n1, cl1, d1);
    }
  }

  /** Before any task, the map is synced with the empty prefix. */
  lemma SyncedStart(c: Dates.Clock, timers: map<string, Entry>, cleared: set<nat>)
    ensures forall id :: LastPending([], id).None?
    ensures SyncedPrefix(c, [], timers, cleared, timers)
  {
  }

  /** With unique ids, a step over a map that already matches the whole list changes nothing. */
  lemma SettledStep(c: Dates.Clock, tasks: seq<TaskModel.Task>, i: nat, nowMs: int,
                    t0: map<string, Entry>, n0: nat, cl0: set<nat>, d0: map<nat, int>,
                    t1: map<string, Entry>, n1: nat, cl1: set<nat>, d1: map<nat, int>)
    requires Matches(c, tasks, t0) && Store.UniqueIds(tasks) && i < |tasks|
    requires Reconciled(c, tasks[i], nowMs, t0, n0, cl0, d0, t1, n1, cl1, d1)
    ensures t1 == t0 && n1 == n0
  {
    var task := tasks[i];
    if Pending(task) {
      LastPendingUnique(tasks, i);
      if task.id !in t0 {
        assert t0 - {task.id} == t0;
      }
    }
  }

  /** After the second loop, the map matches the list, kept timers are untouched and dropped ones cleared. */
  lemma SyncDone(c: Dates.Clock, tasks: seq<TaskModel.Task>, timers0: map<string, Entry>, nextIds: set<string>,
                 t1: map<string, Entry>, cl1: set<nat>, t2: map<string, Entry>, cl2: set<nat>)
    requires SyncedPrefix(c, tasks, t1, cl1, timers0)
    requires forall id :: id in nextIds <==> LastPending(tasks, id).Some?
    requires forall id :: id in t2 <==> id in t1 && id in nextIds
    requires forall id :: id in t2 ==> t2[id] == t1[id]
    requires forall id :: id in t1 && id !in nextIds ==> t1[id].timeoutId in cl2
    requires cl1 <= cl2
    ensures Matches(c, tasks, t2)
    ensures forall id :: id in timers0 && LastPending(tasks, id).Some? && AllPendingAt(tasks, id, timers0[id].reminderAt) ==>
              id in t2 && t2[id] == timers0[id]
    ensures forall id :: id in timers0 && (id !in t2 || t2[id] != timers0[id]) ==> timers0[id].timeoutId in cl2
  {
  }

  /** A map matching the list loses nothing in the second loop. */
  lemma SettledDone(c: Dates.Clock, tasks: seq<TaskModel.Task>, nextIds: set<string>, t1: map<string, Entry>, t2: map<string, Entry>)
    requires Matches(c, tasks, t1)
    requires forall id :: id in nextIds <==> LastPending(tasks, id).Some?
    requires forall id :: id in t2 <==> id in t1 && id in nextIds
    requires forall id :: id in t2 ==> t2[id] == t1[id]
    ensures t2 == t1
  {
    assert forall id :: id in t1 ==> id in nextIds;
    assert t2.Keys == t1.Keys;
  }

  /**
   * Each stored reminder parses, and each handle below `nextHandle` is
   * either the one live timer of exactly one entry or cleared, never both.
   */
  predicate TimersValid(c: Dates.Clock, timers: map<string, Entry>, nextHandle: nat, cleared: set<nat>)
  {
    && (forall id :: id in timers ==> c.parse(timers[id].reminderAt).Some?)
    && (forall id :: id in timers ==> timers[id].timeoutId < nextHandle && timers[id].timeoutId !in cleared)
    && (forall x, y :: x in timers && y in timers && x != y ==> timers[x].timeoutId != timers[y].timeoutId)
    && (forall h :: h in cleared ==> h < nextHandle)
    && (forall h: nat :: h < nextHandle ==> h in cleared || h in Handles(timers))
  }

  /** Clearing an entry's timer and dropping the entry keeps the map valid. */
  lemma ClearKeepsValid(c: Dates.Clock, timers: map<string, Entry>, nextHandle: nat, cleared: set<nat>, id: string)
    requires TimersValid(c, timers, nextHandle, cleared) && id in timers
    ensures TimersValid(c, timers - {id}, nextHandle, cleared + {timers[id].timeoutId})
  {
    var h := timers[id].timeoutId;
    var t1, cl1 := timers - {id}, cleared + {h};
    forall k: nat | k < nextHandle ensures k in cl1 || k in Handles(t1) {
      if k != h && k !in cleared {
        assert k in Handles(timers);
        var x :| x in timers && timers[x].timeoutId == k;
        assert x != id && x in t1;
      }
    }
  }

  /** A timer with the next handle for an id without one keeps the map valid. */
  lemma ScheduleKeepsValid(c: Dates.Clock, timers: map<string, Entry>, nextHandle: nat, cleared: set<nat>, id: string, at: string)
    requires TimersValid(c, timers, nextHandle, cleared) && id !in timers && c.parse(at).Some?
    ensures TimersValid(c, timers[id := Entry(nextHandle, at)], nextHandle + 1, cleared)
  {
    var t1 := timers[id := Entry(nextHandle, at)];
    assert nextHandle in Handles(t1) by {
      assert t1[id].timeoutId == nextHandle;
    }
    forall k: nat | k < nextHandle + 1 ensures k in cleared || k in Handles(t1) {
      if k != nextHandle && k !in cleared {
        assert k in Handles(timers);
        var x :| x in timers && timers[x].timeoutId == k;
        assert x in t1 && t1[x].timeoutId == k;
      }
    }
  }

  class ReminderManager {
    var timers: map<string, Entry>
    /** The next handle `setTimeout` returns. */
    var nextHandle: nat
    var cleared: set<nat>
    /** The delay each handle was set with. */
    var delays: map<nat, int>
    /** The reminders fired so far. */
    var alerts: seq<Alert>
    const clock: Dates.Clock
    const hasOnReminder: bool

    /**
     * Each stored reminder parses, and each timer ever set is either the
     * one live timer of exactly one entry or cleared, never both.
     */
    predicate Valid()
      reads this`timers, this`nextHandle, this`cleared
    {
      TimersValid(clock, timers, nextHandle, cleared)
    }

    /** Whether the timer map already matches `tasks`, as `sync(tasks)` leaves it. */
    ghost predicate InSync(tasks: seq<TaskModel.Task>)
      reads this`timers
    {
      Matches(clock, tasks, timers)
    }

    constructor(c: Dates.Clock, hasOnReminder: bool)
      ensures Valid()
      ensures timers == map[] && nextHandle == 0 && cleared == {} && delays == map[] && alerts == []
      ensures clock == c && this.hasOnReminder == hasOnReminder
    {
      timers := map[];
      nextHandle := 0;
      cleared := {};
      delays := map[];
      alerts := [];
      clock := c;
      this.hasOnReminder := hasOnReminder;
    }

    /** `clearTimeout(entry.timeoutId); this.timers.delete(id)`. */
    method ClearEntry(id: string)
      requires Valid() && id in timers
      modifies this`timers, this`cleared
      ensures Valid()
      ensures timers == old(timers) - {id}
      ensures cleared == old(cleared) + {old(timers)[id].timeoutId}
    {
      ClearKeepsValid(clock, timers, nextHandle, cleared, id);
      cleared := cleared + {timers[id].timeoutId};
      timers := timers - {id};
    }

    /**
     * `#schedule(task)`: nothing for an unparsable reminder; otherwise a new
     * timer, set with `TimeoutDelay` of the time left, stored under the id.
     */
    method Schedule(task: TaskModel.Task, nowMs: int)
      requires Valid() && task.id !in timers
      modifies this`timers, this`nextHandle, this`delays
      ensures Valid()
      ensures task.reminderAt.None? || clock.parse(task.reminderAt.value).None? ==>
                timers == old(timers) && nextHandle == old(nextHandle) && delays == old(delays)
      ensures task.reminderAt.Some? && clock.parse(task.reminderAt.value).Some? ==>
                && timers == old(timers)[task.id := Entry(old(nextHandle), task.reminderAt.value)]
                && nextHandle == old(nextHandle) + 1
                && delays == old(delays)[old(nextHandle) := TimeoutDelay(clock.parse(task.reminderAt.value).value - nowMs)]
    {
      if task.reminderAt.None? {
        return;
      }
      var at := task.reminderAt.value;
      match clock.parse(at)
      case None =>
      case Some(ms) =>
        var h := nextHandle;
        ScheduleKeepsValid(clock, timers, h, cleared, task.id, at);
        delays := delays[h := TimeoutDelay(ms - nowMs)];
        nextHandle := h + 1;
        timers := timers[task.id := Entry(h, at)];
    }

    /**
     * `#trigger(task)`: drop the task's timer, then show the native
     * notification when allowed, otherwise hand the task to `onReminder`.
     */
    method Trigger(task: TaskModel.Task, native: bool)
      requires Valid()
      modifies this`timers, this`cleared, this`alerts
      ensures Valid()
      ensures timers == old(timers) - {task.id}
      ensures task.id in old(timers) ==> cleared == old(cleared) + {old(timers)[task.id].timeoutId}
      ensures task.id !in old(timers) ==> cleared == old(cleared)
      ensures native ==> alerts == old(alerts) + [NativeAlert(task)]
      ensures !native ==> alerts == old(alerts) + (if hasOnReminder then [InApp(task)] else [])
    {
      if task.id in timers {
        ClearEntry(task.id);
      } else {
        assert timers - {task.id} == timers;
      }
      if native {
        alerts := alerts + [NativeAlert(task)];
      } else if hasOnReminder {
        alerts := alerts + [InApp(task)];
      }
    }

    /**
     * One step of `sync`'s first loop: a task that is not pending is skipped;
     * a pending one keeps a timer set for the same reminder, and otherwise
     * has its old timer cleared and a new one scheduled.
     */
    method Reconcile(task: TaskModel.Task, nowMs: int)
      requires Valid()
      modifies this
      ensures Valid() && alerts == old(alerts)
      ensures nextHandle >= old(nextHandle) && old(cleared) <= cleared
      ensures Reconciled(clock, task, nowMs, old(timers), old(nextHandle), old(cleared), old(delays), timers, nextHandle, cleared, delays)
    {
      if !Pending(task) {
        return;
      }
      if task.id in timers && timers[task.id].reminderAt == task.reminderAt.value {
        return;
      }
      ghost var t0 := timers;
      if task.id in timers {
        ClearEntry(task.id);
      }
      assert timers == t0 - {task.id};
      Schedule(task, nowMs);
      assert (t0 - {task.id})[task.id := Entry(old(nextHandle), task.reminderAt.value)]
          == t0[task.id := Entry(old(nextHandle), task.reminderAt.value)];
    }

    /** `sync`'s second loop: clear and drop every timer whose id is not in `keep`. */
    method DropOthers(keep: set<string>)
      requires Valid()
      modifies this`timers, this`cleared
      ensures Valid()
      ensures forall id :: id in timers <==> id in old(timers) && id in keep
      ensures forall id :: id in timers ==> timers[id] == old(timers)[id]
      ensures forall id :: id in old(timers) && id !in keep ==> old(timers)[id].timeoutId in cleared
      ensures old(cleared) <= cleared
    {
      var stale := timers.Keys;
      while stale != {}
        invariant Valid() && old(cleared) <= cleared
        invariant stale <= old(timers).Keys
        invariant forall id :: id in timers <==> id in old(timers) && (id in keep || id in stale)
        invariant forall id :: id in timers ==> timers[id] == old(timers)[id]
        invariant forall id :: id in old(timers) && id !in timers ==> old(timers)[id].timeoutId in cleared
        decreases |stale|
      {
        var id :| id in stale;
        if id !in keep {
          ClearEntry(id);
        }
        stale := stale - {id};
      }
    }

    /**
     * `sync`'s first loop: reconcile every task in order and collect the ids
     * of the pending ones.
     */
    method ReconcileAll(tasks: seq<TaskModel.Task>, nowMs: int) returns (nextIds: set<string>)
      requires Valid()
      modifies this
      ensures Valid() && nextHandle >= old(nextHandle) && old(cleared) <= cleared && alerts == old(alerts)
      ensures forall id :: id in nextIds <==> LastPending(tasks, id).Some?
      ensures SyncedPrefix(clock, tasks, timers, cleared, old(timers))
      ensures old(InSync(tasks)) && Store.UniqueIds(tasks) ==> timers == old(timers) && nextHandle == old(nextHandle)
    {
      ghost var settled := InSync(tasks) && Store.UniqueIds(tasks);
      ghost var timers0, handle0 := timers, nextHandle;
      nextIds := {};
      var i := 0;
      assert tasks[..0] == [];
      SyncedStart(clock, timers, cleared);
      while i < |tasks|
        invariant 0 <= i <= |tasks| && Valid()
        invariant nextHandle >= handle0 && old(cleared) <= cleared && alerts == old(alerts)
        invariant forall id :: id in nextIds <==> LastPending(tasks[..i], id).Some?
        invariant SyncedPrefix(clock, tasks[..i], timers, cleared, timers0)
        invariant settled ==> Matches(clock, tasks, timers0) && Store.UniqueIds(tasks)
        invariant settled ==> timers == timers0 && nextHandle == handle0
      {
        nextIds := ReconcileNext(tasks, i, nowMs, nextIds, timers0, settled);
        i := i + 1;
      }
      assert tasks[..i] == tasks;
    }

    /** One turn of `sync`'s first loop: reconcile `tasks[i]` and collect its id when pending. */
    method ReconcileNext(tasks: seq<TaskModel.Task>, i: nat, nowMs: int, ids: set<string>,
                         ghost timers0: map<string, Entry>, ghost settled: bool) returns (next: set<string>)
      requires i < |tasks| && Valid()
      requires forall id :: id in ids <==> LastPending(tasks[..i], id).Some?
      requires SyncedPrefix(clock, tasks[..i], timers, cleared, timers0)
      requires settled ==> Matches(clock, tasks, timers) && Store.UniqueIds(tasks)
      modifies this
      ensures Valid() && nextHandle >= old(nextHandle) && old(cleared) <= cleared && alerts == old(alerts)
      ensures forall id :: id in next <==> LastPending(tasks[..i + 1], id).Some?
      ensures SyncedPrefix(clock, tasks[..i + 1], timers, cleared, timers0)
      ensures settled ==> timers == old(timers) && nextHandle == old(nextHandle)
    {
      var task := tasks[i];
      Reconcile(task, nowMs);
      next := if Pending(task) then ids + {task.id} else ids;
      ReconcileAllStep(clock, tasks, i, nowMs, timers0, settled, ids, next,
                       old(timers), old(nextHandle), old(cleared), old(delays), timers, nextHandle, cleared, delays);
    }

    /**
     * `sync(tasks)`: afterwards there is a timer exactly for the ids whose
     * last pending task has a parsable reminder, holding that reminder. A
     * timer whose reminder every pending task with its id still asks for is
     * kept as it was, and every timer replaced or dropped is cleared. With
     * unique ids, a map that already matches the list is left alone.
     */
    method Sync(tasks: seq<TaskModel.Task>, nowMs: int)
      requires Valid()
      modifies this
      ensures Valid()
      ensures InSync(tasks)
      ensures forall id :: id in old(timers) && LastPending(tasks, id).Some? && AllPendingAt(tasks, id, old(timers)[id].reminderAt) ==>
                id in timers && timers[id] == old(timers)[id]
      ensures forall id :: id in old(timers) && (id !in timers || timers[id] != old(timers)[id]) ==>
                old(timers)[id].timeoutId in cleared
      ensures old(InSync(tasks)) && Store.UniqueIds(tasks) ==> timers == old(timers) && nextHandle == old(nextHandle)
      ensures alerts == old(alerts) && old(cleared) <= cleared && nextHandle >= old(nextHandle)
    {
      var nextIds := ReconcileAll(tasks, nowMs);
      ghost var t1, cl1 := timers, cleared;
      DropOthers(nextIds);
      SyncDone(clock, tasks, old(timers), nextIds, t1, cl1, timers, cleared);
      if old(InSync(tasks)) && Store.UniqueIds(tasks) {
        SettledDone(clock, tasks, nextIds, t1, timers);
      }
    }
  }

  /**
   * Syncing the same list twice: the second call sets no timer and leaves
   * the map as the first call left it. `scheduled` counts the timers each
   * call set.
   */
  method SyncTwice(m: ReminderManager, tasks: seq<TaskModel.Task>, nowMs: int, laterMs: int)
    returns (scheduledFirst: nat, scheduledSecond: nat)
    requires m.Valid() && Store.UniqueIds(tasks)
    modifies m
    ensures m.Valid() && m.InSync(tasks)
    ensures scheduledSecond == 0
  {
    var start := m.nextHandle;
    m.Sync(tasks, nowMs);
    var middle := m.nextHandle;
    m.Sync(tasks, laterMs);
    scheduledFirst := middle - start;
    scheduledSecond := m.nextHandle - middle;
  }
}
