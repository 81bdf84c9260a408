// src/state/store.js: the single application state, its subscribers, and
// every task, project and settings action. Each action is a pure producer
// over `AppState` (the arrow function handed to `updateState`) plus the
// `Store` method that commits it.
module Store {
  import opened Wrappers
  import opened JsValues
  import Seqs
  import Dates
  import TaskModel
  import ProjectModel
  import opened Storage

  // ----- ordering helpers shared by tasks and projects

  /** `Number.isFinite(order) ? order : 0`. */
  function OrderKey(n: Num): int
  {
    FiniteOr(n, 0)
  }

  /** The "not after" relation of `sortByOrder`'s comparator. */
  function ByOrder<T>(orderOf: T -> Num): (T, T) -> bool
  {
    Seqs.ByKey(x => OrderKey(orderOf(x)))
  }

  /** `sortByOrder(collection)`: a sorted copy. */
  function SortByOrder<T>(items: seq<T>, orderOf: T -> Num): (r: seq<T>)
    ensures multiset(r) == multiset(items)
    ensures |r| == |items|
  {
    Seqs.Sort(items, ByOrder(orderOf))
  }

  /**
   * `sortByOrder` returns a permutation ordered by `order`, a non-finite
   * order counting as 0, and items with equal keys keep their input order.
   */
  lemma SortByOrderSpec<T(!new)>(items: seq<T>, orderOf: T -> Num)
    ensures multiset(SortByOrder(items, orderOf)) == multiset(items)
    ensures forall i, j :: 0 <= i < j < |items| ==>
              OrderKey(orderOf(SortByOrder(items, orderOf)[i])) <= OrderKey(orderOf(SortByOrder(items, orderOf)[j]))
    ensures forall e :: Seqs.Class(SortByOrder(items, orderOf), e, ByOrder(orderOf)) == Seqs.Class(items, e, ByOrder(orderOf))
  {
    var le := ByOrder(orderOf);
    Seqs.ByKeyPreorder(x => OrderKey(orderOf(x)));
    Seqs.SortSorted(items, le);
    forall e ensures Seqs.Class(SortByOrder(items, orderOf), e, le) == Seqs.Class(items, e, le) {
      Seqs.SortStable(items, e, le);
    }
  }

  /** `resequence(items)`: item `i` gets order `(i + 1) * 1000`. */
  function Resequence<T>(items: seq<T>, setOrder: (T, int) -> T): (r: seq<T>)
    ensures |r| == |items|
    ensures forall i :: 0 <= i < |items| ==> r[i] == setOrder(items[i], (i + 1) * 1000)
  {
    seq(|items|, i requires 0 <= i < |items| => setOrder(items[i], (i + 1) * 1000))
  }

  /** `setOrder` writes the order and nothing that identifies the item. */
  ghost predicate OrderSetter<T(!new)>(idOf: T -> string, orderOf: T -> Num, setOrder: (T, int) -> T)
  {
    forall x, k :: orderOf(setOrder(x, k)) == Finite(k) && idOf(setOrder(x, k)) == idOf(x)
  }

  /** After resequencing, orders are 1000, 2000, … and so strictly increasing. */
  lemma ResequenceOrders<T(!new)>(items: seq<T>, idOf: T -> string, orderOf: T -> Num, setOrder: (T, int) -> T)
    requires OrderSetter(idOf, orderOf, setOrder)
    ensures forall i :: 0 <= i < |items| ==> orderOf(Resequence(items, setOrder)[i]) == Finite((i + 1) * 1000)
    ensures forall i, j :: 0 <= i < j < |items| ==>
              OrderKey(orderOf(Resequence(items, setOrder)[i])) < OrderKey(orderOf(Resequence(items, setOrder)[j]))
  {
  }

  /** `s.findIndex(item => item.id === id)`, as an option. */
  function FindIndex<T>(s: seq<T>, idOf: T -> string, id: string): (r: Option<nat>)
    ensures r.Some? ==> r.value < |s| && idOf(s[r.value]) == id
    ensures r.Some? ==> forall j :: 0 <= j < r.value ==> idOf(s[j]) != id
    ensures r.None? ==> forall j :: 0 <= j < |s| ==> idOf(s[j]) != id
  {
    if |s| == 0 then None
    else if idOf(s[0]) == id then Some(0)
    else
      match FindIndex(s[1..], idOf, id)
      case None => None
      case Some(k) => Some(k + 1)
  }

  /** `s` without the element at `i`. */
  function RemoveAt<T>(s: seq<T>, i: nat): seq<T>
    requires i < |s|
  {
    s[..i] + s[i + 1..]
  }

  /** Taking out the element at `i` leaves the rest of the multiset. */
  lemma RemoveAtMultiset<T>(s: seq<T>, i: nat)
    requires i < |s|
    ensures multiset(RemoveAt(s, i)) + multiset{s[i]} == multiset(s)
  {
    assert s == s[..i] + [s[i]] + s[i + 1..];
  }

  /** Inserting `x` at `to` and taking it out again gives `rest` back. */
  lemma InsertAtSpec<T>(rest: seq<T>, x: T, to: nat)
    requires to <= |rest|
    ensures var r := rest[..to] + [x] + rest[to..];
            && |r| == |rest| + 1 && r[to] == x
            && multiset(r) == multiset(rest) + multiset{x}
            && RemoveAt(r, to) == rest
  {
    var r := rest[..to] + [x] + rest[to..];
    assert rest == rest[..to] + rest[to..];
    assert r[..to] == rest[..to] && r[to + 1..] == rest[to..];
  }

  /** The two `splice` calls: take the element at `from` out and insert it at `to`. */
  function MoveItem<T>(s: seq<T>, from: nat, to: nat): (r: seq<T>)
    requires from < |s| && to < |s|
    ensures |r| == |s|
    ensures r[to] == s[from]
    ensures multiset(r) == multiset(s)
    ensures RemoveAt(r, to) == RemoveAt(s, from)
  {
    var rest := RemoveAt(s, from);
    RemoveAtMultiset(s, from);
    InsertAtSpec(rest, s[from], to);
    rest[..to] + [s[from]] + rest[to..]
  }

  function Clamp(lo: int, hi: int, x: int): int
  {
    if x < lo then lo else if x > hi then hi else x
  }

  /**
   * `reorderCollection(collection, id, destinationIndex)`: an unknown id
   * gives the collection back untouched; otherwise the order-sorted copy
   * with the item moved to the clamped index, resequenced.
   */
  function ReorderCollection<T>(collection: seq<T>, id: string, destinationIndex: int,
                                idOf: T -> string, orderOf: T -> Num, setOrder: (T, int) -> T): (r: seq<T>)
    ensures |r| == |collection|
    ensures (forall j :: 0 <= j < |collection| ==> idOf(collection[j]) != id) ==> r == collection
  {
    var sorted := SortByOrder(collection, orderOf);
    match FindIndex(sorted, idOf, id)
    case None =>
      collection
    case Some(index) =>
      var targetIndex := Clamp(0, |sorted| - 1, destinationIndex);
      Resequence(MoveItem(sorted, index, targetIndex), setOrder)
  }

  /** `r` is `m` resequenced, `m` a permutation of `collection` with the id at the clamped destination. */
  ghost predicate ResequencedPermutation<T>(r: seq<T>, m: seq<T>, collection: seq<T>, destinationIndex: int, id: string,
                                           idOf: T -> string, setOrder: (T, int) -> T)
  {
    var target := Clamp(0, |collection| - 1, destinationIndex);
    && |m| == |r| && multiset(m) == multiset(collection)
    && (forall i :: 0 <= i < |r| ==> r[i] == setOrder(m[i], (i + 1) * 1000))
    && 0 <= target < |m| && idOf(m[target]) == id
  }

  /** An id the collection holds is found in its sorted copy. */
  lemma FoundAfterSort<T>(collection: seq<T>, idOf: T -> string, orderOf: T -> Num, id: string)
    requires exists j :: 0 <= j < |collection| && idOf(collection[j]) == id
    ensures FindIndex(SortByOrder(collection, orderOf), idOf, id).Some?
  {
    var sorted := SortByOrder(collection, orderOf);
    var j :| 0 <= j < |collection| && idOf(collection[j]) == id;
    assert collection[j] in multiset(sorted);
  }

  /** With the id found at `index` of the sorted copy, the reorder moves that item and resequences. */
  lemma ReorderFound<T>(collection: seq<T>, id: string, destinationIndex: int,
                        idOf: T -> string, orderOf: T -> Num, setOrder: (T, int) -> T, index: nat)
    requires FindIndex(SortByOrder(collection, orderOf), idOf, id) == Some(index)
    ensures index < |collection|
    ensures ReorderCollection(collection, id, destinationIndex, idOf, orderOf, setOrder)
            == Resequence(MoveItem(SortByOrder(collection, orderOf), index, Clamp(0, |collection| - 1, destinationIndex)), setOrder)
  {
  }

  /** The permutation a reorder resequences: the sorted copy with the item moved. */
  ghost function ReorderWitness<T>(collection: seq<T>, id: string, destinationIndex: int,
                                   idOf: T -> string, orderOf: T -> Num): seq<T>
  {
    var sorted := SortByOrder(collection, orderOf);
    match FindIndex(sorted, idOf, id)
    case None => sorted
    case Some(index) => MoveItem(sorted, index, Clamp(0, |sorted| - 1, destinationIndex))
  }

  /**
   * When the id is present, the result is a permutation of the input, with
   * the item carrying the id at the clamped destination, resequenced to
   * 1000, 2000, ….
   */
  lemma ReorderCollectionSpec<T(!new)>(collection: seq<T>, id: string, destinationIndex: int,
                                       idOf: T -> string, orderOf: T -> Num, setOrder: (T, int) -> T)
    requires OrderSetter(idOf, orderOf, setOrder)
    requires exists j :: 0 <= j < |collection| && idOf(collection[j]) == id
    ensures forall i :: 0 <= i < |collection| ==>
              orderOf(ReorderCollection(collection, id, destinationIndex, idOf, orderOf, setOrder)[i]) == Finite((i + 1) * 1000)
    ensures ResequencedPermutation(ReorderCollection(collection, id, destinationIndex, idOf, orderOf, setOrder),
                                   ReorderWitness(collection, id, destinationIndex, idOf, orderOf),
                                   collection, destinationIndex, id, idOf, setOrder)
  {
    var sorted := SortByOrder(collection, orderOf);
    FoundAfterSort(collection, idOf, orderOf, id);
    var index := FindIndex(sorted, idOf, id).value;
    var target := Clamp(0, |sorted| - 1, destinationIndex);
    var m := MoveItem(sorted, index, target);
    assert m == ReorderWitness(collection, id, destinationIndex, idOf, orderOf);
    var r := Resequence(m, setOrder);
    ReorderFound(collection, id, destinationIndex, idOf, orderOf, setOrder, index);
    ResequenceOrders(m, idOf, orderOf, setOrder);
    assert multiset(m) == multiset(sorted) == multiset(collection);
    assert |m| == |r|;
    assert 0 <= target < |m| && idOf(m[target]) == id;
    assert forall i :: 0 <= i < |r| ==> r[i] == setOrder(m[i], (i + 1) * 1000);
  }

  // ----- task actions

  /** The clock and the fresh values an action draws on. */
  datatype Env = Env(clock: Dates.Clock, nowMs: int, freshId: string, subtaskIds: nat -> string)

  function TaskId(t: Task): string { t.id }
  function TaskOrder(t: Task): Num { t.order }
  function SetTaskOrder(t: Task, k: int): Task { t.(order := Finite(k)) }

  /** No two tasks share an id. */
  predicate UniqueIds(tasks: seq<Task>)
  {
    forall i, j :: 0 <= i < |tasks| && 0 <= j < |tasks| && i != j ==> tasks[i].id != tasks[j].id
  }

  /** `tasks.find(item => item.id === id)`. */
  function FindTask(tasks: seq<Task>, id: string): (r: Option<Task>)
    ensures r.Some? ==> r.value in tasks && r.value.id == id
    ensures r.None? ==> forall j :: 0 <= j < |tasks| ==> tasks[j].id != id
  {
    match FindIndex(tasks, TaskId, id)
    case None => None
    case Some(i) => Some(tasks[i])
  }

  /** `tasks.map(item => item.id === id ? updated : item)`. */
  function ReplaceTask(tasks: seq<Task>, id: string, updated: Task): (r: seq<Task>)
    ensures |r| == |tasks|
    ensures forall i :: 0 <= i < |tasks| ==> r[i] == if tasks[i].id == id then updated else tasks[i]
  {
    seq(|tasks|, i requires 0 <= i < |tasks| => if tasks[i].id == id then updated else tasks[i])
  }

  /** `{ ...current, tasks: [...current.tasks, task] }`. */
  function AppendTask(s: AppState, t: Task): (r: AppState)
    ensures r.tasks == s.tasks + [t] && r.projects == s.projects && r.settings == s.settings && r.version == s.version
  {
    s.(tasks := s.tasks + [t])
  }

  /**
   * The producer of `updateTask(id, updates)`: a missing id leaves the state
   * as it is; a model error (an emptied title) is thrown out of the producer;
   * otherwise every task carrying the id is replaced by the updated copy and
   * nothing else changes.
   */
  function UpdateTaskIn(s: AppState, id: string, updates: Js, env: Env): (r: Result<AppState, string>)
    ensures FindTask(s.tasks, id).None? ==> r == Ok(s)
    ensures r.Err? <==> FindTask(s.tasks, id).Some?
                        && Truthy(Get(updates, "title")) && TaskModel.SanitizeTitle(Get(updates, "title")).Err?
    ensures r.Ok? ==> r.value.projects == s.projects && r.value.settings == s.settings && |r.value.tasks| == |s.tasks|
    ensures r.Ok? ==> forall i :: 0 <= i < |s.tasks| && s.tasks[i].id != id ==> r.value.tasks[i] == s.tasks[i]
    ensures r.Ok? ==> forall i :: 0 <= i < |s.tasks| && s.tasks[i].id == id ==>
                        r.value.tasks[i].id == id && r.value.tasks[i].updatedAt == env.clock.iso(env.nowMs)
                        && TaskModel.KeepsUnset(FindTask(s.tasks, id).value, updates, r.value.tasks[i])
    ensures r.Ok? ==> forall i :: 0 <= i < |s.tasks| && s.tasks[i].id == id ==>
                        && FindTask(s.tasks, id).Some?
                        && TaskModel.UpdateTask(env.clock, FindTask(s.tasks, id), updates, env.clock.iso(env.nowMs),
                                                env.nowMs, env.subtaskIds).Ok?
                        && r.value.tasks[i] == TaskModel.UpdateTask(env.clock, FindTask(s.tasks, id), updates,
                                                  env.clock.iso(env.nowMs), env.nowMs, env.subtaskIds).value
  {
    match FindTask(s.tasks, id)
    case None => Ok(s)
    case Some(t) =>
      match TaskModel.UpdateTask(env.clock, Some(t), updates, env.clock.iso(env.nowMs), env.nowMs, env.subtaskIds)
      case Err(e) => Err(e)
      case Ok(updated) => Ok(s.(tasks := ReplaceTask(s.tasks, id, updated)))
  }

  /** `typeof forceState === 'boolean' ? forceState : !task.doneAt`. */
  function ShouldComplete(t: Task, forceState: Js): bool
  {
    if forceState.Bool? then forceState.b else !t.IsDone()
  }

  /** The patch `{ doneAt: shouldComplete ? now : null }`. */
  function DonePatch(shouldComplete: bool, now: string): Js
  {
    Object(map["doneAt" := if shouldComplete then Str(now) else Null])
  }

  /**
   * The producer of `toggleTaskDone(id, forceState)`, with `now` the local
   * ISO stamp. The patch has no title, so the model update cannot fail.
   */
  function ToggleTaskIn(s: AppState, id: string, forceState: Js, now: string, env: Env): (r: AppState)
    ensures FindTask(s.tasks, id).None? ==> r == s
    ensures r.projects == s.projects && r.settings == s.settings && |r.tasks| == |s.tasks|
    ensures forall i :: 0 <= i < |s.tasks| && s.tasks[i].id != id ==> r.tasks[i] == s.tasks[i]
  {
    match FindTask(s.tasks, id)
    case None => s
    case Some(t) =>
      var patch := DonePatch(ShouldComplete(t, forceState), now);
      assert Get(patch, "title") == Undefined;
      var updated := TaskModel.UpdateTask(env.clock, Some(t), patch, env.clock.iso(env.nowMs), env.nowMs, env.subtaskIds).value;
      s.(tasks := ReplaceTask(s.tasks, id, updated))
  }

  /**
   * Toggling forces `doneAt` to the forced state, or flips it, whenever the
   * clock reads its own local stamp back as a date with non-empty ISO text;
   * only `doneAt` and `updatedAt` of the toggled task change.
   */
  lemma ToggleTaskDoneSpec(s: AppState, id: string, forceState: Js, now: string, env: Env)
    requires FindTask(s.tasks, id).Some?
    requires now != "" && env.clock.parse(now).Some? && env.clock.iso(env.clock.parse(now).value) != ""
    ensures var t := FindTask(s.tasks, id).value;
            var r := ToggleTaskIn(s, id, forceState, now, env);
            forall i :: 0 <= i < |s.tasks| && s.tasks[i].id == id ==>
              && r.tasks[i].IsDone() == ShouldComplete(t, forceState)
              && r.tasks[i] == t.(doneAt := r.tasks[i].doneAt, updatedAt := r.tasks[i].updatedAt)
  {
    var t := FindTask(s.tasks, id).value;
    var patch := DonePatch(ShouldComplete(t, forceState), now);
    assert Get(patch, "title") == Undefined;
    var u := TaskModel.UpdateTask(env.clock, Some(t), patch, env.clock.iso(env.nowMs), env.nowMs, env.subtaskIds).value;
    assert ToggleTaskIn(s, id, forceState, now, env).tasks == ReplaceTask(s.tasks, id, u);
    ToggledTask(t, forceState, now, env);
  }

  /** The toggled task: done exactly when it should complete, and only `doneAt` and `updatedAt` differ. */
  lemma ToggledTask(t: Task, forceState: Js, now: string, env: Env)
    requires now != "" && env.clock.parse(now).Some? && env.clock.iso(env.clock.parse(now).value) != ""
    ensures var patch := DonePatch(ShouldComplete(t, forceState), now);
            var u := TaskModel.UpdateTask(env.clock, Some(t), patch, env.clock.iso(env.nowMs), env.nowMs, env.subtaskIds);
            && u.Ok?
            && u.value.IsDone() == ShouldComplete(t, forceState)
            && u.value == t.(doneAt := u.value.doneAt, updatedAt := u.value.updatedAt)
  {
    var patch := DonePatch(ShouldComplete(t, forceState), now);
    assert Get(patch, "title") == Undefined;
    var u := TaskModel.UpdateTask(env.clock, Some(t), patch, env.clock.iso(env.nowMs), env.nowMs, env.subtaskIds).value;
    assert u.doneAt == TaskModel.NormalizeDate(env.clock, Get(patch, "doneAt"));
  }

  /** The producer of `deleteTask(id)`. */
  function DeleteTaskIn(s: AppState, id: string): (r: AppState)
    ensures r.projects == s.projects && r.settings == s.settings
    ensures forall j :: 0 <= j < |r.tasks| ==> r.tasks[j].id != id
  {
    s.(tasks := Seqs.Filter(s.tasks, (t: Task) => t.id != id))
  }

  /** Deleting keeps exactly the tasks with another id. */
  lemma DeleteTaskSpec(s: AppState, id: string, t: Task)
    ensures t in DeleteTaskIn(s, id).tasks <==> t in s.tasks && t.id != id
  {
    Seqs.FilterMembership(s.tasks, (x: Task) => x.id != id, t);
  }

  /** The tasks of one project scope, `None` being the inbox. */
  function TasksIn(tasks: seq<Task>, scope: Option<string>): (r: seq<Task>)
    ensures forall k :: 0 <= k < |r| ==> r[k].projectId == scope
    ensures multiset(r) <= multiset(tasks)
  {
    Seqs.Filter(tasks, (t: Task) => t.projectId == scope)
  }

  /** `tasks.map(task => reordered.find(item => item.id === task.id) || task)`. */
  function Replacements(tasks: seq<Task>, reordered: seq<Task>): (r: seq<Task>)
    ensures |r| == |tasks|
  {
    seq(|tasks|, i requires 0 <= i < |tasks| => FindTask(reordered, tasks[i].id).UnwrapOr(tasks[i]))
  }

  /** The producer of `reorderTask(taskId, destinationIndex, projectId)`. */
  function ReorderTaskIn(s: AppState, taskId: string, destinationIndex: int, scope: Option<string>): (r: AppState)
    ensures r.projects == s.projects && r.settings == s.settings && |r.tasks| == |s.tasks|
  {
    var inScope := TasksIn(s.tasks, scope);
    if FindTask(inScope, taskId).None? then s
    else
      s.(tasks := Replacements(s.tasks, ReorderCollection(inScope, taskId, destinationIndex, TaskId, TaskOrder, SetTaskOrder)))
  }

  /** `m` is what the reordered scope was resequenced from: tasks of the scope, all of them. */
  ghost predicate ResequencedScope(tasks: seq<Task>, m: seq<Task>, reordered: seq<Task>, scope: Option<string>)
  {
    && |m| == |reordered|
    && (forall k :: 0 <= k < |m| ==> reordered[k] == SetTaskOrder(m[k], (k + 1) * 1000))
    && (forall k :: 0 <= k < |m| ==> m[k] in tasks && m[k].projectId == scope)
    && (forall i :: 0 <= i < |tasks| && tasks[i].projectId == scope ==> tasks[i] in m)
  }

  /** With unique ids, the replacement found for a task is that task re-ordered, and only in-scope tasks find one. */
  lemma ReplacementOf(tasks: seq<Task>, m: seq<Task>, reordered: seq<Task>, scope: Option<string>, i: nat)
    requires UniqueIds(tasks) && ResequencedScope(tasks, m, reordered, scope) && i < |tasks|
    ensures FindTask(reordered, tasks[i].id).Some? <==> tasks[i].projectId == scope
    ensures FindTask(reordered, tasks[i].id).Some? ==>
              FindTask(reordered, tasks[i].id).value == tasks[i].(order := FindTask(reordered, tasks[i].id).value.order)
  {
    var id := tasks[i].id;
    if tasks[i].projectId == scope {
      var k :| 0 <= k < |m| && m[k] == tasks[i];
      assert reordered[k].id == id;
    }
    var f := FindIndex(reordered, TaskId, id);
    if f.Some? {
      var k := f.value;
      assert m[k].id == id;
      var j :| 0 <= j < |tasks| && tasks[j] == m[k];
      assert j == i;
    }
  }

  /**
   * Replacing from a resequenced scope changes nothing outside the scope
   * and only the `order` of the tasks inside it.
   */
  lemma ReplacementsSpec(tasks: seq<Task>, m: seq<Task>, reordered: seq<Task>, scope: Option<string>)
    requires UniqueIds(tasks) && ResequencedScope(tasks, m, reordered, scope)
    ensures forall i :: 0 <= i < |tasks| && tasks[i].projectId != scope ==> Replacements(tasks, reordered)[i] == tasks[i]
    ensures forall i :: 0 <= i < |tasks| && tasks[i].projectId == scope ==>
              Replacements(tasks, reordered)[i] == tasks[i].(order := Replacements(tasks, reordered)[i].order)
  {
    forall i | 0 <= i < |tasks|
      ensures tasks[i].projectId != scope ==> Replacements(tasks, reordered)[i] == tasks[i]
      ensures tasks[i].projectId == scope ==>
                Replacements(tasks, reordered)[i] == tasks[i].(order := Replacements(tasks, reordered)[i].order)
    {
      ReplacementOf(tasks, m, reordered, scope, i);
    }
  }

  /** A scope no task belongs to selects nothing. */
  lemma TasksInEmpty(tasks: seq<Task>, scope: Option<string>)
    requires forall t :: t in tasks ==> t.projectId != scope
    ensures TasksIn(tasks, scope) == []
  {
    Seqs.FilterNone(tasks, (t: Task) => t.projectId == scope);
  }

  /** The scope filter holds every task of the scope. */
  lemma TasksInComplete(tasks: seq<Task>, scope: Option<string>)
    ensures forall i :: 0 <= i < |tasks| && tasks[i].projectId == scope ==> tasks[i] in TasksIn(tasks, scope)
  {
    forall i | 0 <= i < |tasks| && tasks[i].projectId == scope
      ensures tasks[i] in TasksIn(tasks, scope)
    {
      Seqs.FilterMembership(tasks, (t: Task) => t.projectId == scope, tasks[i]);
    }
  }

  /** A permutation of the scope filter is a resequencing source for the scope. */
  lemma ScopePermutation(tasks: seq<Task>, m: seq<Task>, reordered: seq<Task>, scope: Option<string>)
    requires |m| == |reordered| && multiset(m) == multiset(TasksIn(tasks, scope))
    requires forall k :: 0 <= k < |m| ==> reordered[k] == SetTaskOrder(m[k], (k + 1) * 1000)
    ensures ResequencedScope(tasks, m, reordered, scope)
  {
    var inScope := TasksIn(tasks, scope);
    forall k | 0 <= k < |m| ensures m[k] in tasks && m[k].projectId == scope {
      assert m[k] in multiset(inScope);
      var j :| 0 <= j < |inScope| && inScope[j] == m[k];
      assert inScope[j] in multiset(tasks);
    }
    TasksInComplete(tasks, scope);
    forall i | 0 <= i < |tasks| && tasks[i].projectId == scope ensures tasks[i] in m {
      assert tasks[i] in multiset(inScope);
    }
  }

  /** The reorder of a scope resequences the witness permutation of that scope. */
  lemma ReorderWitnessSpec(inScope: seq<Task>, taskId: string, destinationIndex: int)
    requires FindTask(inScope, taskId).Some?
    ensures var m := ReorderWitness(inScope, taskId, destinationIndex, TaskId, TaskOrder);
            var reordered := ReorderCollection(inScope, taskId, destinationIndex, TaskId, TaskOrder, SetTaskOrder);
            && |m| == |reordered| && multiset(m) == multiset(inScope)
            && forall k :: 0 <= k < |m| ==> reordered[k] == SetTaskOrder(m[k], (k + 1) * 1000)
  {
    assert OrderSetter(TaskId, TaskOrder, SetTaskOrder);
    assert FindTask(inScope, taskId).value in inScope;
    ReorderCollectionSpec(inScope, taskId, destinationIndex, TaskId, TaskOrder, SetTaskOrder);
  }

  /** A reorder inside a scope that holds the id meets `ResequencedScope`. */
  lemma ReorderedScope(tasks: seq<Task>, taskId: string, destinationIndex: int, scope: Option<string>)
    requires FindTask(TasksIn(tasks, scope), taskId).Some?
    ensures ResequencedScope(tasks, ReorderWitness(TasksIn(tasks, scope), taskId, destinationIndex, TaskId, TaskOrder),
              ReorderCollection(TasksIn(tasks, scope), taskId, destinationIndex, TaskId, TaskOrder, SetTaskOrder), scope)
  {
    var inScope := TasksIn(tasks, scope);
    ReorderWitnessSpec(inScope, taskId, destinationIndex);
    ScopePermutation(tasks, ReorderWitness(inScope, taskId, destinationIndex, TaskId, TaskOrder),
                     ReorderCollection(inScope, taskId, destinationIndex, TaskId, TaskOrder, SetTaskOrder), scope);
  }

  /**
   * `reorderTask` touches only its project scope: with unique ids, a task
   * outside the scope is unchanged and a task inside it changes only its
   * `order`; a task id not in the scope leaves the state as it is.
   */
  lemma ReorderTaskSpec(s: AppState, taskId: string, destinationIndex: int, scope: Option<string>)
    requires UniqueIds(s.tasks)
    ensures var r := ReorderTaskIn(s, taskId, destinationIndex, scope);
            && (forall i :: 0 <= i < |s.tasks| && s.tasks[i].projectId != scope ==> r.tasks[i] == s.tasks[i])
            && (forall i :: 0 <= i < |s.tasks| && s.tasks[i].projectId == scope ==>
                  r.tasks[i] == s.tasks[i].(order := r.tasks[i].order))
    ensures (forall j :: 0 <= j < |s.tasks| && s.tasks[j].projectId == scope ==> s.tasks[j].id != taskId) ==>
              ReorderTaskIn(s, taskId, destinationIndex, scope) == s
  {
    var inScope := TasksIn(s.tasks, scope);
    if FindTask(inScope, taskId).Some? {
      ReorderedScope(s.tasks, taskId, destinationIndex, scope);
      var reordered := ReorderCollection(inScope, taskId, destinationIndex, TaskId, TaskOrder, SetTaskOrder);
      var m := ReorderWitness(inScope, taskId, destinationIndex, TaskId, TaskOrder);
      ReplacementsSpec(s.tasks, m, reordered, scope);
      var t := FindTask(inScope, taskId).value;
      assert t in multiset(s.tasks);
    }
  }

  /**
   * When the dragged task is in the scope, `reorderTask` renumbers the whole
   * scope: with unique ids, every task of the scope ends with an order of
   * 1000, 2000, … up to 1000 times the number of tasks.
   */
  lemma ReorderResequencesScope(s: AppState, taskId: string, destinationIndex: int, scope: Option<string>, i: nat)
    requires UniqueIds(s.tasks)
    requires exists j :: 0 <= j < |s.tasks| && s.tasks[j].projectId == scope && s.tasks[j].id == taskId
    requires i < |s.tasks| && s.tasks[i].projectId == scope
    ensures var r := ReorderTaskIn(s, taskId, destinationIndex, scope);
            exists k :: 0 < k <= |s.tasks| && r.tasks[i].order == Finite(k * 1000)
  {
    var inScope := TasksIn(s.tasks, scope);
    var j :| 0 <= j < |s.tasks| && s.tasks[j].projectId == scope && s.tasks[j].id == taskId;
    assert FindTask(inScope, taskId).Some? by {
      TasksInComplete(s.tasks, scope);
      assert s.tasks[j] in inScope;
    }
    var reordered := ReorderCollection(inScope, taskId, destinationIndex, TaskId, TaskOrder, SetTaskOrder);
    var m := ReorderWitness(inScope, taskId, destinationIndex, TaskId, TaskOrder);
    ReorderedScope(s.tasks, taskId, destinationIndex, scope);
    ReplacementOf(s.tasks, m, reordered, scope, i);
    var found := FindTask(reordered, s.tasks[i].id).value;
    var k :| 0 <= k < |reordered| && reordered[k] == found;
    assert found.order == Finite((k + 1) * 1000) by {
      assert reordered[k] == SetTaskOrder(m[k], (k + 1) * 1000);
    }
    assert k + 1 <= |s.tasks| by {
      assert |multiset(inScope)| <= |multiset(s.tasks)|;
    }
    assert ReorderTaskIn(s, taskId, destinationIndex, scope).tasks == Replacements(s.tasks, reordered);
  }

  /** `normalizeProjectId(projectId)` handed back to the task model: null for the inbox. */
  function ProjectIdJs(scope: Option<string>): (r: Js)
    ensures TaskModel.ProjectIdOf(r) == scope
  {
    match scope
    case None => Null
    case Some(id) => Str(id)
  }

  /** The producer of `moveTaskToProject(taskId, projectId, destinationIndex)`. */
  function MoveTaskIn(s: AppState, taskId: string, scope: Option<string>, destinationIndex: int, env: Env): (r: AppState)
    ensures r.projects == s.projects && r.settings == s.settings && |r.tasks| == |s.tasks|
    ensures FindTask(s.tasks, taskId).None? ==> r == s
  {
    match FindTask(s.tasks, taskId)
    case None => s
    case Some(t) =>
      var patch := Object(map["projectId" := ProjectIdJs(scope)]);
      assert Get(patch, "title") == Undefined;
      var updated := TaskModel.UpdateTask(env.clock, Some(t), patch, env.clock.iso(env.nowMs), env.nowMs, env.subtaskIds).value;
      var others := ReplaceTask(s.tasks, taskId, updated);
      var reordered := ReorderCollection(TasksIn(others, scope), taskId, destinationIndex, TaskId, TaskOrder, SetTaskOrder);
      s.(tasks := Replacements(others, reordered))
  }

  /** The task a move writes before reordering: only `projectId` and the stamp differ. */
  lemma MovedTask(t: Task, scope: Option<string>, env: Env)
    ensures var patch := Object(map["projectId" := ProjectIdJs(scope)]);
            var u := TaskModel.UpdateTask(env.clock, Some(t), patch, env.clock.iso(env.nowMs), env.nowMs, env.subtaskIds);
            u == Ok(t.(projectId := scope, updatedAt := env.clock.iso(env.nowMs)))
  {
    var patch := Object(map["projectId" := ProjectIdJs(scope)]);
    assert Get(patch, "title") == Undefined;
    assert Get(patch, "projectId") == ProjectIdJs(scope);
  }

  /**
   * `moveTaskToProject`: with unique ids, the moved task lands in the target
   * scope with only `projectId`, `order` and `updatedAt` changed; every other
   * task of the target scope changes only its `order`, and every other task
   * is unchanged.
   */
  lemma MoveTaskSpec(s: AppState, taskId: string, scope: Option<string>, destinationIndex: int, env: Env)
    requires UniqueIds(s.tasks)
    ensures var r := MoveTaskIn(s, taskId, scope, destinationIndex, env);
            forall i :: 0 <= i < |s.tasks| ==>
              if s.tasks[i].id == taskId then
                r.tasks[i] == s.tasks[i].(projectId := scope, order := r.tasks[i].order, updatedAt := r.tasks[i].updatedAt)
              else if s.tasks[i].projectId == scope then
                r.tasks[i] == s.tasks[i].(order := r.tasks[i].order)
              else
                r.tasks[i] == s.tasks[i]
  {
    if FindTask(s.tasks, taskId).Some? {
      var t := FindTask(s.tasks, taskId).value;
      var updated := t.(projectId := scope, updatedAt := env.clock.iso(env.nowMs));
      var others := ReplaceTask(s.tasks, taskId, updated);
      var reordered := ReorderCollection(TasksIn(others, scope), taskId, destinationIndex, TaskId, TaskOrder, SetTaskOrder);
      assert MoveTaskIn(s, taskId, scope, destinationIndex, env).tasks == Replacements(others, reordered) by {
        MovedTask(t, scope, env);
      }
      var j :| 0 <= j < |s.tasks| && s.tasks[j] == t;
      MovedReplacements(s.tasks, taskId, updated, scope, destinationIndex, j);
    }
  }

  /**
   * The tasks after a move, once the moved task is written: with unique
   * ids, it and the rest of the target scope change only their `order`, and
   * every other task is unchanged.
   */
  lemma MovedReplacements(tasks: seq<Task>, taskId: string, updated: Task, scope: Option<string>, destinationIndex: int, j: nat)
    requires UniqueIds(tasks) && j < |tasks| && tasks[j].id == taskId
    requires updated.id == taskId && updated.projectId == scope
    ensures var others := ReplaceTask(tasks, taskId, updated);
            var r := Replacements(others, ReorderCollection(TasksIn(others, scope), taskId, destinationIndex, TaskId, TaskOrder, SetTaskOrder));
            forall i :: 0 <= i < |tasks| ==>
              if tasks[i].id == taskId then r[i] == updated.(order := r[i].order)
              else if tasks[i].projectId == scope then r[i] == tasks[i].(order := r[i].order)
              else r[i] == tasks[i]
  {
    var others := ReplaceTask(tasks, taskId, updated);
    var reordered := ReorderCollection(TasksIn(others, scope), taskId, destinationIndex, TaskId, TaskOrder, SetTaskOrder);
    var m := ReorderWitness(TasksIn(others, scope), taskId, destinationIndex, TaskId, TaskOrder);
    assert UniqueIds(others);
    assert ResequencedScope(others, m, reordered, scope) by {
      assert others[j] == updated;
      TasksInComplete(others, scope);
      assert updated in TasksIn(others, scope);
      ReorderedScope(others, taskId, destinationIndex, scope);
    }
    ReplacementsSpec(others, m, reordered, scope);
    forall i | 0 <= i < |tasks| && tasks[i].id != taskId
      ensures others[i] == tasks[i]
    {
    }
  }

  // ----- project actions

  function ProjectId(p: Project): string { p.id }
  function ProjectOrder(p: Project): Num { p.order }
  function SetProjectOrder(p: Project, k: int): Project { p.(order := Finite(k)) }

  /** `projects.find(item => item.id === id)`. */
  function FindProject(projects: seq<Project>, id: string): (r: Option<Project>)
    ensures r.Some? ==> r.value in projects && r.value.id == id
    ensures r.None? ==> forall j :: 0 <= j < |projects| ==> projects[j].id != id
  {
    match FindIndex(projects, ProjectId, id)
    case None => None
    case Some(i) => Some(projects[i])
  }

  /** `{ ...current, projects: [...current.projects, project] }`. */
  function AppendProject(s: AppState, p: Project): (r: AppState)
    ensures r.projects == s.projects + [p] && r.tasks == s.tasks && r.settings == s.settings && r.version == s.version
  {
    s.(projects := s.projects + [p])
  }

  /**
   * The producer of `updateProject(id, updates)`: a missing id leaves the
   * state as it is, an emptied name is thrown, otherwise the projects with
   * the id are replaced by the updated copy.
   */
  function UpdateProjectIn(s: AppState, id: string, updates: Js, env: Env): (r: Result<AppState, string>)
    ensures FindProject(s.projects, id).None? ==> r == Ok(s)
    ensures r.Err? <==> FindProject(s.projects, id).Some?
                        && Truthy(Get(updates, "name")) && ProjectModel.SanitizeName(Get(updates, "name")).Err?
    ensures r.Ok? ==> r.value.tasks == s.tasks && r.value.settings == s.settings && |r.value.projects| == |s.projects|
    ensures r.Ok? ==> forall i :: 0 <= i < |s.projects| && s.projects[i].id != id ==> r.value.projects[i] == s.projects[i]
    ensures r.Ok? ==> forall i :: 0 <= i < |s.projects| && s.projects[i].id == id ==>
                        r.value.projects[i].id == id && r.value.projects[i].updatedAt == env.clock.iso(env.nowMs)
    ensures r.Ok? ==> forall i :: 0 <= i < |s.projects| && s.projects[i].id == id ==>
                        && FindProject(s.projects, id).Some?
                        && ProjectModel.UpdateProject(FindProject(s.projects, id), updates, env.clock.iso(env.nowMs),
                                                      env.nowMs).Ok?
                        && r.value.projects[i] == ProjectModel.UpdateProject(FindProject(s.projects, id), updates,
                                                     env.clock.iso(env.nowMs), env.nowMs).value
  {
    match FindProject(s.projects, id)
    case None => Ok(s)
    case Some(p) =>
      match ProjectModel.UpdateProject(Some(p), updates, env.clock.iso(env.nowMs), env.nowMs)
      case Err(e) => Err(e)
      case Ok(updated) =>
        Ok(s.(projects := seq(|s.projects|, i requires 0 <= i < |s.projects| =>
                                if s.projects[i].id == id then updated else s.projects[i])))
  }

  /** `behavior || current.settings.removeProjectBehavior`, then the `=== 'delete-with-tasks'` test. */
  function ResolveBehavior(behavior: Js, setting: RemoveBehavior): (r: RemoveBehavior)
    ensures !Truthy(behavior) ==> r == setting
    ensures Truthy(behavior) ==> (r == DeleteWithTasks <==> behavior == Str("delete-with-tasks"))
  {
    if !Truthy(behavior) then setting
    else if behavior == Str("delete-with-tasks") then DeleteWithTasks
    else MoveToInbox
  }

  /** The producer of `deleteProject(id, behavior)`. */
  function DeleteProjectIn(s: AppState, id: string, behavior: Js): (r: AppState)
    ensures r.settings == s.settings
    ensures forall j :: 0 <= j < |r.projects| ==> r.projects[j].id != id
    ensures forall j :: 0 <= j < |r.tasks| ==> r.tasks[j].projectId != Some(id)
  {
    var projects := Seqs.Filter(s.projects, (p: Project) => p.id != id);
    var tasks :=
      if ResolveBehavior(behavior, s.settings.removeProjectBehavior) == DeleteWithTasks then
        Seqs.Filter(s.tasks, (t: Task) => t.projectId != Some(id))
      else
        seq(|s.tasks|, i requires 0 <= i < |s.tasks| =>
              if s.tasks[i].projectId == Some(id) then s.tasks[i].(projectId := None) else s.tasks[i]);
    s.(projects := projects, tasks := tasks)
  }

  /**
   * `deleteProject` removes exactly the projects with the id. Deleting with
   * tasks keeps exactly the tasks of other projects; moving to the inbox
   * keeps every task in place and only the project's tasks lose their
   * `projectId`.
   */
  lemma DeleteProjectSpec(s: AppState, id: string, behavior: Js)
    ensures var r := DeleteProjectIn(s, id, behavior);
            forall p :: p in r.projects <==> p in s.projects && p.id != id
    ensures var r := DeleteProjectIn(s, id, behavior);
            ResolveBehavior(behavior, s.settings.removeProjectBehavior) == DeleteWithTasks ==>
              forall t :: t in r.tasks <==> t in s.tasks && t.projectId != Some(id)
    ensures var r := DeleteProjectIn(s, id, behavior);
            ResolveBehavior(behavior, s.settings.removeProjectBehavior) != DeleteWithTasks ==>
              && |r.tasks| == |s.tasks|
              && forall i :: 0 <= i < |s.tasks| ==>
                   if s.tasks[i].projectId == Some(id) then r.tasks[i] == s.tasks[i].(projectId := None)
                   else r.tasks[i] == s.tasks[i]
  {
    var r := DeleteProjectIn(s, id, behavior);
    forall p ensures p in r.projects <==> p in s.projects && p.id != id {
      Seqs.FilterMembership(s.projects, (q: Project) => q.id != id, p);
    }
    if ResolveBehavior(behavior, s.settings.removeProjectBehavior) == DeleteWithTasks {
      forall t ensures t in r.tasks <==> t in s.tasks && t.projectId != Some(id) {
        Seqs.FilterMembership(s.tasks, (x: Task) => x.projectId != Some(id), t);
      }
    }
  }

  /** The producer of `reorderProject(projectId, destinationIndex)`. */
  function ReorderProjectIn(s: AppState, id: string, destinationIndex: int): (r: AppState)
    ensures r.tasks == s.tasks && r.settings == s.settings && |r.projects| == |s.projects|
    ensures FindProject(s.projects, id).None? ==> r == s
  {
    s.(projects := ReorderCollection(s.projects, id, destinationIndex, ProjectId, ProjectOrder, SetProjectOrder))
  }

  /**
   * Reordering a known project resequences all projects to 1000, 2000, …
   * and puts it at the clamped destination of a permutation of the projects.
   */
  lemma ReorderProjectSpec(s: AppState, id: string, destinationIndex: int)
    requires FindProject(s.projects, id).Some?
    ensures var r := ReorderProjectIn(s, id, destinationIndex);
            && (forall i :: 0 <= i < |r.projects| ==> r.projects[i].order == Finite((i + 1) * 1000))
            && exists m: seq<Project> :: ResequencedPermutation(r.projects, m, s.projects, destinationIndex, id, ProjectId, SetProjectOrder)
  {
    assert OrderSetter(ProjectId, ProjectOrder, SetProjectOrder);
    assert FindProject(s.projects, id).value in s.projects;
    ReorderCollectionSpec(s.projects, id, destinationIndex, ProjectId, ProjectOrder, SetProjectOrder);
    var m := ReorderWitness(s.projects, id, destinationIndex, ProjectId, ProjectOrder);
    assert ResequencedPermutation(ReorderProjectIn(s, id, destinationIndex).projects, m, s.projects, destinationIndex, id, ProjectId, SetProjectOrder);
  }

  // ----- settings

  /**
   * The producer of `updateSettings(updates)`: each setting takes a
   * recognised value from the updates and otherwise keeps its current value.
   */
  function UpdateSettingsIn(s: AppState, updates: Js): (r: AppState)
    ensures r.tasks == s.tasks && r.projects == s.projects && r.version == s.version
    ensures Get(updates, "removeProjectBehavior") == Str("delete-with-tasks") ==> r.settings.removeProjectBehavior == DeleteWithTasks
    ensures Get(updates, "removeProjectBehavior") == Str("move-to-inbox") ==> r.settings.removeProjectBehavior == MoveToInbox
    ensures Get(updates, "removeProjectBehavior") !in {Str("delete-with-tasks"), Str("move-to-inbox")} ==>
              r.settings.removeProjectBehavior == s.settings.removeProjectBehavior
    ensures Get(updates, "timeFormat") == Str("12h") ==> r.settings.timeFormat == H12
    ensures Get(updates, "timeFormat") == Str("24h") ==> r.settings.timeFormat == H24
    ensures Get(updates, "timeFormat") !in {Str("12h"), Str("24h")} ==> r.settings.timeFormat == s.settings.timeFormat
  {
    var behavior := Get(updates, "removeProjectBehavior");
    var format := Get(updates, "timeFormat");
    s.(settings := Settings(
      if behavior == Str("delete-with-tasks") then DeleteWithTasks
      else if behavior == Str("move-to-inbox") then MoveToInbox
      else s.settings.removeProjectBehavior,
      if format == Str("12h") then H12
      else if format == Str("24h") then H24
      else s.settings.timeFormat))
  }

  /** Updating the settings with what they already are changes nothing. */
  lemma UpdateSettingsIdempotent(s: AppState, updates: Js)
    ensures UpdateSettingsIn(UpdateSettingsIn(s, updates), updates) == UpdateSettingsIn(s, updates)
  {
  }

  // ----- clearing completed tasks

  /** `projectId === undefined` (every project) or a scope, `None` being the inbox. */
  datatype ClearScope = AllProjects | OnlyScope(scope: Option<string>)

  /** The filter callback of `clearCompletedTasks`. */
  predicate KeepOnClear(t: Task, target: ClearScope)
  {
    !t.IsDone() || (target.OnlyScope? && t.projectId != target.scope)
  }

  /** The producer of `clearCompletedTasks(projectId)`. */
  function ClearCompletedIn(s: AppState, target: ClearScope): (r: AppState)
    ensures r.projects == s.projects && r.settings == s.settings && |r.tasks| <= |s.tasks|
  {
    s.(tasks := Seqs.Filter(s.tasks, (t: Task) => KeepOnClear(t, target)))
  }

  /**
   * Clearing never removes an incomplete task; without a scope it removes
   * every done task, with one it removes exactly the done tasks of that scope.
   */
  lemma ClearCompletedSpec(s: AppState, target: ClearScope, t: Task)
    ensures t in s.tasks && !t.IsDone() ==> t in ClearCompletedIn(s, target).tasks
    ensures target.AllProjects? ==> (t in ClearCompletedIn(s, target).tasks <==> t in s.tasks && !t.IsDone())
    ensures target.OnlyScope? ==>
              (t in ClearCompletedIn(s, target).tasks <==> t in s.tasks && !(t.IsDone() && t.projectId == target.scope))
  {
    Seqs.FilterMembership(s.tasks, (x: Task) => KeepOnClear(x, target), t);
  }

  // ----- the store object

  /** The `{ state, meta }` payload of a `state:changed` broadcast. */
  datatype Broadcast = Broadcast(state: AppState, meta: Js)

  /** A callback (named by a number) receiving a payload. */
  datatype Delivery = Delivery(subscriber: nat, payload: Broadcast)

  const StateChanged := "state:changed"

  /** `listeners.get(event)`, empty when absent. */
  function Subscribers(listeners: map<string, seq<nat>>, event: string): seq<nat>
  {
    if event in listeners then listeners[event] else []
  }

  /** One delivery per subscriber, in subscription order. */
  function Deliveries(subs: seq<nat>, payload: Broadcast): (r: seq<Delivery>)
    ensures |r| == |subs|
    ensures forall i :: 0 <= i < |subs| ==> r[i] == Delivery(subs[i], payload)
  {
    seq(|subs|, i requires 0 <= i < |subs| => Delivery(subs[i], payload))
  }

  /** How many of `subs` throw. */
  function FailureCount(subs: seq<nat>, failing: set<nat>): (r: nat)
    ensures r <= |subs|
  {
    if subs == [] then 0
    else FailureCount(subs[..|subs| - 1], failing) + (if subs[|subs| - 1] in failing then 1 else 0)
  }

  predicate NoDuplicates(s: seq<nat>)
  {
    forall i, j :: 0 <= i < j < |s| ==> s[i] != s[j]
  }

  /** A JSON-like meta object `{ type, ...fields }`. */
  function Meta(kind: string, fields: map<string, Js>): Js
  {
    Object(fields["type" := Str(kind)])
  }

  /**
   * The module state of `store.js`: the current state, the `listeners` map
   * (each `Set` an insertion-ordered sequence of callbacks), the save
   * scheduler, and logs of what every callback received and how many errors
   * were caught.
   */
  class Store {
    var state: AppState
    var listeners: map<string, seq<nat>>
    var delivered: seq<Delivery>
    var errorsLogged: nat
    const saver: SaveScheduler
    const hasStorage: bool

    /** Every registered event has a non-empty set of distinct callbacks. */
    predicate Valid()
      reads this, saver
    {
      && saver.Valid()
      && forall e :: e in listeners ==> listeners[e] != [] && NoDuplicates(listeners[e])
    }

    /** `let state = loadState()`, with no listeners yet. */
    constructor(c: Dates.Clock, stored: Stored, nowMs: int, freshId: nat -> string, hasStorage: bool)
      ensures Valid()
      ensures state == LoadState(c, stored, GetDefaultState(c, nowMs, freshId))
      ensures listeners == map[] && delivered == [] && errorsLogged == 0
      ensures this.hasStorage == hasStorage && fresh(saver)
    {
      state := LoadState(c, stored, GetDefaultState(c, nowMs, freshId));
      listeners := map[];
      delivered := [];
      errorsLogged := 0;
      saver := new SaveScheduler();
      this.hasStorage := hasStorage;
    }

    /**
     * `emit(event, payload)`: every subscriber receives the payload in
     * order, whether or not an earlier one throws; each throw is logged.
     */
    method Emit(event: string, payload: Broadcast, failing: set<nat>)
      modifies this
      ensures delivered == old(delivered) + Deliveries(Subscribers(listeners, event), payload)
      ensures errorsLogged == old(errorsLogged) + FailureCount(Subscribers(listeners, event), failing)
      ensures state == old(state) && listeners == old(listeners)
    {
      var subs := Subscribers(listeners, event);
      var i := 0;
      while i < |subs|
        invariant 0 <= i <= |subs|
        invariant delivered == old(delivered) + Deliveries(subs[..i], payload)
        invariant errorsLogged == old(errorsLogged) + FailureCount(subs[..i], failing)
        invariant state == old(state) && listeners == old(listeners)
      {
        assert subs[..i + 1][..i] == subs[..i];
        delivered := delivered + [Delivery(subs[i], payload)];
        if subs[i] in failing {
          errorsLogged := errorsLogged + 1;
        }
        i := i + 1;
      }
      assert subs[..i] == subs;
    }

    /** What `setState(next, meta)` leaves behind. */
    twostate predicate Committed(next: AppState, meta: Js, failing: set<nat>)
      reads this, saver
    {
      && state == next
      && listeners == old(listeners)
      && delivered == old(delivered) + Deliveries(Subscribers(old(listeners), StateChanged), Broadcast(next, meta))
      && errorsLogged == old(errorsLogged) + FailureCount(Subscribers(old(listeners), StateChanged), failing)
      && saver.pendingState == Some(next)
      && saver.written == old(saver.written)
    }

    /** `setState(next, meta)`: replace, schedule a save, broadcast. */
    method SetState(next: AppState, meta: Js, failing: set<nat>)
      requires Valid()
      modifies this, saver
      ensures Valid()
      ensures Committed(next, meta, failing)
    {
      state := next;
      saver.ScheduleSave(state, hasStorage);
      Emit(StateChanged, Broadcast(state, meta), failing);
    }

    /** `subscribe(event, callback)`: the callback joins the event's set once. */
    method Subscribe(event: string, callback: nat)
      requires Valid()
      modifies this
      ensures Valid()
      ensures event in listeners && callback in listeners[event]
      ensures listeners == old(listeners)[event :=
                if callback in Subscribers(old(listeners), event) then Subscribers(old(listeners), event)
                else Subscribers(old(listeners), event) + [callback]]
      ensures state == old(state) && delivered == old(delivered) && errorsLogged == old(errorsLogged)
    {
      var subs := Subscribers(listeners, event);
      if callback !in subs {
        subs := subs + [callback];
      }
      listeners := listeners[event := subs];
    }

    /**
     * The unsubscribe closure: the callback leaves the event's set, and the
     * event is dropped once its set is empty.
     */
    method Unsubscribe(event: string, callback: nat)
      requires Valid()
      modifies this
      ensures Valid()
      ensures event in listeners ==> callback !in listeners[event]
      ensures forall e :: e != event ==> (e in listeners <==> e in old(listeners))
      ensures forall e :: e != event && e in listeners ==> listeners[e] == old(listeners)[e]
      ensures Seqs.Filter(Subscribers(old(listeners), event), x => x != callback) == [] ==> event !in listeners
      ensures Seqs.Filter(Subscribers(old(listeners), event), x => x != callback) != [] ==>
                event in listeners && listeners[event] == Seqs.Filter(Subscribers(old(listeners), event), x => x != callback)
      ensures state == old(state) && delivered == old(delivered) && errorsLogged == old(errorsLogged)
    {
      var subs := Seqs.Filter(Subscribers(listeners, event), x => x != callback);
      if subs == [] {
        listeners := map e | e in listeners && e != event :: listeners[e];
      } else {
        Seqs.FilterDistinct(Subscribers(listeners, event), x => x != callback);
        listeners := listeners[event := subs];
      }
    }

    /** `resetState()`: the default state, broadcast as a reset. */
    method ResetState(c: Dates.Clock, nowMs: int, freshId: nat -> string, failing: set<nat>)
      requires Valid()
      modifies this, saver
      ensures Valid()
      ensures Committed(GetDefaultState(c, nowMs, freshId), Meta("state:reset", map[]), failing)
    {
      SetState(GetDefaultState(c, nowMs, freshId), Meta("state:reset", map[]), failing);
    }

    /** `addTask(input)`: an invalid input throws before anything changes. */
    method AddTask(input: Js, env: Env, failing: set<nat>) returns (r: Result<Task, string>)
      requires Valid()
      modifies this, saver
      ensures Valid()
      ensures r == TaskModel.CreateTask(env.clock, input, env.clock.iso(env.nowMs), env.nowMs, env.freshId, env.subtaskIds)
      ensures r.Err? ==> unchanged(this) && unchanged(saver)
      ensures r.Ok? ==> Committed(AppendTask(old(state), r.value), Meta("task:add", map["id" := Str(r.value.id)]), failing)
    {
      r := TaskModel.CreateTask(env.clock, input, env.clock.iso(env.nowMs), env.nowMs, env.freshId, env.subtaskIds);
      if r.Ok? {
        SetState(AppendTask(state, r.value), Meta("task:add", map["id" := Str(r.value.id)]), failing);
      }
    }

    /**
     * `updateTask(id, updates)`: a thrown model error leaves everything as
     * it was; a missing id still re-commits and broadcasts the same state.
     */
    method UpdateTask(id: string, updates: Js, env: Env, failing: set<nat>) returns (r: Result<AppState, string>)
      requires Valid()
      modifies this, saver
      ensures Valid()
      ensures r == UpdateTaskIn(old(state), id, updates, env)
      ensures r.Err? ==> unchanged(this) && unchanged(saver)
      ensures r.Ok? ==> Committed(r.value, Meta("task:update", map["id" := Str(id)]), failing)
    {
      r := UpdateTaskIn(state, id, updates, env);
      if r.Ok? {
        SetState(r.value, Meta("task:update", map["id" := Str(id)]), failing);
      }
    }

    /** `toggleTaskDone(id, forceState)`, with `now` the local ISO stamp. */
    method ToggleTaskDone(id: string, forceState: Js, env: Env, failing: set<nat>)
      requires Valid()
      modifies this, saver
      ensures Valid()
      ensures Committed(ToggleTaskIn(old(state), id, forceState, env.clock.localIso(env.nowMs), env),
                        Meta("task:toggle", map["id" := Str(id)]), failing)
    {
      SetState(ToggleTaskIn(state, id, forceState, env.clock.localIso(env.nowMs), env),
               Meta("task:toggle", map["id" := Str(id)]), failing);
    }

    /** `deleteTask(id)`. */
    method DeleteTask(id: string, failing: set<nat>)
      requires Valid()
      modifies this, saver
      ensures Valid()
      ensures Committed(DeleteTaskIn(old(state), id), Meta("task:delete", map["id" := Str(id)]), failing)
    {
      SetState(DeleteTaskIn(state, id), Meta("task:delete", map["id" := Str(id)]), failing);
    }

    /** `reorderTask(taskId, destinationIndex, projectId)`. */
    method ReorderTask(taskId: string, destinationIndex: int, scope: Option<string>, failing: set<nat>)
      requires Valid()
      modifies this, saver
      ensures Valid()
      ensures Committed(ReorderTaskIn(old(state), taskId, destinationIndex, scope),
                        Meta("task:reorder", map["id" := Str(taskId), "projectId" := ProjectIdJs(scope)]), failing)
    {
      SetState(ReorderTaskIn(state, taskId, destinationIndex, scope),
               Meta("task:reorder", map["id" := Str(taskId), "projectId" := ProjectIdJs(scope)]), failing);
    }

    /** `moveTaskToProject(taskId, projectId, destinationIndex)`. */
    method MoveTaskToProject(taskId: string, scope: Option<string>, destinationIndex: int, env: Env, failing: set<nat>)
      requires Valid()
      modifies this, saver
      ensures Valid()
      ensures Committed(MoveTaskIn(old(state), taskId, scope, destinationIndex, env),
                        Meta("task:move", map["id" := Str(taskId), "projectId" := ProjectIdJs(scope)]), failing)
    {
      SetState(MoveTaskIn(state, taskId, scope, destinationIndex, env),
               Meta("task:move", map["id" := Str(taskId), "projectId" := ProjectIdJs(scope)]), failing);
    }

    /** `addProject(input)`: an empty name throws before anything changes. */
    method AddProject(input: Js, env: Env, failing: set<nat>) returns (r: Result<Project, string>)
      requires Valid()
      modifies this, saver
      ensures Valid()
      ensures r == ProjectModel.CreateProject(input, env.clock.iso(env.nowMs), env.nowMs, env.freshId)
      ensures r.Err? ==> unchanged(this) && unchanged(saver)
      ensures r.Ok? ==> Committed(AppendProject(old(state), r.value), Meta("project:add", map["id" := Str(r.value.id)]), failing)
    {
      r := ProjectModel.CreateProject(input, env.clock.iso(env.nowMs), env.nowMs, env.freshId);
      if r.Ok? {
        SetState(AppendProject(state, r.value), Meta("project:add", map["id" := Str(r.value.id)]), failing);
      }
    }

    /** `updateProject(id, updates)`. */
    method UpdateProject(id: string, updates: Js, env: Env, failing: set<nat>) returns (r: Result<AppState, string>)
      requires Valid()
      modifies this, saver
      ensures Valid()
      ensures r == UpdateProjectIn(old(state), id, updates, env)
      ensures r.Err? ==> unchanged(this) && unchanged(saver)
      ensures r.Ok? ==> Committed(r.value, Meta("project:update", map["id" := Str(id)]), failing)
    {
      r := UpdateProjectIn(state, id, updates, env);
      if r.Ok? {
        SetState(r.value, Meta("project:update", map["id" := Str(id)]), failing);
      }
    }

    /** `deleteProject(id, behavior)`. */
    method DeleteProject(id: string, behavior: Js, failing: set<nat>)
      requires Valid()
      modifies this, saver
      ensures Valid()
      ensures Committed(DeleteProjectIn(old(state), id, behavior), Meta("project:delete", map["id" := Str(id)]), failing)
    {
      SetState(DeleteProjectIn(state, id, behavior), Meta("project:delete", map["id" := Str(id)]), failing);
    }

    /** `reorderProject(projectId, destinationIndex)`. */
    method ReorderProject(id: string, destinationIndex: int, failing: set<nat>)
      requires Valid()
      modifies this, saver
      ensures Valid()
      ensures Committed(ReorderProjectIn(old(state), id, destinationIndex), Meta("project:reorder", map["id" := Str(id)]), failing)
    {
      SetState(ReorderProjectIn(state, id, destinationIndex), Meta("project:reorder", map["id" := Str(id)]), failing);
    }

    /** `updateSettings(updates)`. */
    method UpdateSettings(updates: Js, failing: set<nat>)
      requires Valid()
      modifies this, saver
      ensures Valid()
      ensures Committed(UpdateSettingsIn(old(state), updates), Meta("settings:update", map[]), failing)
    {
      SetState(UpdateSettingsIn(state, updates), Meta("settings:update", map[]), failing);
    }

    /** `clearCompletedTasks(projectId)`. */
    method ClearCompletedTasks(target: ClearScope, failing: set<nat>)
      requires Valid()
      modifies this, saver
      ensures Valid()
      ensures Committed(ClearCompletedIn(old(state), target),
                        Meta("task:clearCompleted", map["projectId" := ClearScopeJs(target)]), failing)
    {
      SetState(ClearCompletedIn(state, target), Meta("task:clearCompleted", map["projectId" := ClearScopeJs(target)]), failing);
    }
  }

  /** The `projectId` argument a clear scope came from. */
  function ClearScopeJs(target: ClearScope): Js
  {
    match target
    case AllProjects => Undefined
    case OnlyScope(scope) => ProjectIdJs(scope)
  }
}
