// src/app.js: the cloud merge (`#mergeCollection`, `#mergeCloudState`,
// `#parseTimestamp`; `#compareByOrder` is the comparator of
// `Store.SortByOrder`), the restore gating of `#restoreFromCloud`, the
// `state:changed` subscriber, and the handlers that turn a user action into
// a store call.
module App {
  import opened Wrappers
  import opened JsValues
  import Dates
  import TaskModel
  import ProjectModel
  import Store
  import Seqs
  import Router
  import ProjectView
  import opened Storage

  // ----- timestamps

  /** `#parseTimestamp(value)`: `Date.parse`, or 0 when that is not finite. */
  function ParseTimestamp(c: Dates.Clock, value: Option<string>): (r: int)
    ensures value.None? ==> r == 0
    ensures value.Some? ==> r == c.parse(value.value).UnwrapOr(0)
  {
    match value
    case None => 0
    case Some(s) => c.parse(s).UnwrapOr(0)
  }

  // ----- the merge, as a reference definition

  /** The ids of `s` in order of first appearance, items without an id skipped. */
  function FirstIds<T>(s: seq<T>, idOf: T -> string): (r: seq<string>)
    ensures forall k :: 0 <= k < |r| ==> r[k] != ""
  {
    if s == [] then []
    else
      var prev := FirstIds(s[..|s| - 1], idOf);
      var id := idOf(s[|s| - 1]);
      if id == "" || id in prev then prev else prev + [id]
  }

  /** `FirstIds` lists each id of `s` once, and nothing else. */
  lemma {:induction false} FirstIdsSpec<T>(s: seq<T>, idOf: T -> string)
    ensures forall i, j :: 0 <= i < j < |FirstIds(s, idOf)| ==> FirstIds(s, idOf)[i] != FirstIds(s, idOf)[j]
    ensures forall id :: id in FirstIds(s, idOf) <==> id != "" && exists k :: 0 <= k < |s| && idOf(s[k]) == id
  {
    if s != [] {
      var p := s[..|s| - 1];
      FirstIdsSpec(p, idOf);
      forall id ensures id in FirstIds(s, idOf) <==> id != "" && exists k :: 0 <= k < |s| && idOf(s[k]) == id {
        if id != "" && (exists k :: 0 <= k < |s| && idOf(s[k]) == id) {
          var k :| 0 <= k < |s| && idOf(s[k]) == id;
          if k < |s| - 1 {
            assert idOf(p[k]) == id;
          }
        }
        if id in FirstIds(p, idOf) {
          var k :| 0 <= k < |p| && idOf(p[k]) == id;
          assert idOf(s[k]) == id;
        }
      }
    }
  }

  /** The last item of `s` with a given non-empty id: the local pass of `#mergeCollection`. */
  function LastWith<T>(s: seq<T>, idOf: T -> string, id: string): (r: Option<T>)
    ensures r.Some? ==> r.value in s && idOf(r.value) == id && id != ""
  {
    if s == [] then None
    else if id != "" && idOf(s[|s| - 1]) == id then Some(s[|s| - 1])
    else LastWith(s[..|s| - 1], idOf, id)
  }

  /**
   * What the merged map holds for `id` after the remote pass over `remote`:
   * a remote item is taken when the id is new or when its timestamp is not
   * older than the one held.
   */
  function Pick<T>(local: seq<T>, remote: seq<T>, idOf: T -> string, stamp: T -> int, id: string): (r: Option<T>)
    ensures r.Some? ==> (r.value in local || r.value in remote) && idOf(r.value) == id && id != ""
  {
    if remote == [] then LastWith(local, idOf, id)
    else
      var held := Pick(local, remote[..|remote| - 1], idOf, stamp, id);
      var x := remote[|remote| - 1];
      if id == "" || idOf(x) != id then held
      else if held.None? || stamp(x) >= stamp(held.value) then Some(x)
      else held
  }

  /** An id is held after the merge exactly when some item carries it. */
  lemma {:induction false} PickDefined<T>(local: seq<T>, remote: seq<T>, idOf: T -> string, stamp: T -> int, id: string)
    ensures Pick(local, remote, idOf, stamp, id).Some? <==>
              id != "" && exists k :: 0 <= k < |local + remote| && idOf((local + remote)[k]) == id
  {
    if remote == [] {
      assert local + remote == local;
      LastWithDefined(local, idOf, id);
    } else {
      var p := remote[..|remote| - 1];
      PickDefined(local, p, idOf, stamp, id);
      var all := local + remote;
      assert local + p == all[..|all| - 1];
      if id != "" && exists k :: 0 <= k < |all| && idOf(all[k]) == id {
        var k :| 0 <= k < |all| && idOf(all[k]) == id;
        if k < |all| - 1 {
          assert idOf((local + p)[k]) == id;
        } else {
          assert all[k] == remote[|remote| - 1];
        }
      }
      if Pick(local, p, idOf, stamp, id).Some? {
        var k :| 0 <= k < |local + p| && idOf((local + p)[k]) == id;
        assert all[k] == (local + p)[k];
      } else if id != "" && idOf(remote[|remote| - 1]) == id {
        assert all[|all| - 1] == remote[|remote| - 1];
      }
    }
  }

  lemma {:induction false} LastWithDefined<T>(s: seq<T>, idOf: T -> string, id: string)
    ensures LastWith(s, idOf, id).Some? <==> id != "" && exists k :: 0 <= k < |s| && idOf(s[k]) == id
  {
    if s != [] {
      var p := s[..|s| - 1];
      LastWithDefined(p, idOf, id);
      if id != "" && exists k :: 0 <= k < |s| && idOf(s[k]) == id {
        var k :| 0 <= k < |s| && idOf(s[k]) == id;
        if k < |s| - 1 {
          assert idOf(p[k]) == id;
        }
      }
      if LastWith(p, idOf, id).Some? {
        var k :| 0 <= k < |p| && idOf(p[k]) == id;
        assert s[k] == p[k];
      }
    }
  }

  /** The merged values in map order, before sorting. */
  function MergedValues<T>(local: seq<T>, remote: seq<T>, idOf: T -> string, stamp: T -> int): (r: seq<T>)
    ensures |r| == |FirstIds(local + remote, idOf)|
    ensures forall i :: 0 <= i < |r| ==> Pick(local, remote, idOf, stamp, FirstIds(local + remote, idOf)[i]) == Some(r[i])
  {
    var keys := FirstIds(local + remote, idOf);
    FirstIdsSpec(local + remote, idOf);
    assert forall i :: 0 <= i < |keys| ==> Pick(local, remote, idOf, stamp, keys[i]).Some? by {
      forall i | 0 <= i < |keys| ensures Pick(local, remote, idOf, stamp, keys[i]).Some? {
        assert keys[i] in keys;
        PickDefined(local, remote, idOf, stamp, keys[i]);
      }
    }
    seq(|keys|, i requires 0 <= i < |keys| => Pick(local, remote, idOf, stamp, keys[i]).value)
  }

  /** Later remote items without the id do not change what is held for it. */
  lemma {:induction false} PickSkip<T>(local: seq<T>, remote: seq<T>, idOf: T -> string, stamp: T -> int, id: string, k: nat)
    requires k <= |remote|
    requires forall j :: k <= j < |remote| ==> idOf(remote[j]) != id
    ensures Pick(local, remote, idOf, stamp, id) == Pick(local, remote[..k], idOf, stamp, id)
    decreases |remote| - k
  {
    if k < |remote| {
      var p := remote[..|remote| - 1];
      assert p[..k] == remote[..k];
      PickSkip(local, p, idOf, stamp, id, k);
    } else {
      assert remote[..k] == remote;
    }
  }

  /** With ids unique in `s`, the last item with an id is the one item with it. */
  lemma {:induction false} LastWithUnique<T>(s: seq<T>, idOf: T -> string, i: nat)
    requires i < |s| && idOf(s[i]) != ""
    requires forall j :: 0 <= j < |s| && j != i ==> idOf(s[j]) != idOf(s[i])
    ensures LastWith(s, idOf, idOf(s[i])) == Some(s[i])
  {
    if i < |s| - 1 {
      var p := s[..|s| - 1];
      assert p[i] == s[i];
      LastWithUnique(p, idOf, i);
    }
  }

  /** Last write wins, an id only the local side has: the local item is kept. */
  lemma MergeKeepsLocalOnly<T>(local: seq<T>, remote: seq<T>, idOf: T -> string, stamp: T -> int, i: nat)
    requires Seqs.UniqueIds(local, idOf)
    requires i < |local| && idOf(local[i]) != ""
    requires forall j :: 0 <= j < |remote| ==> idOf(remote[j]) != idOf(local[i])
    ensures Pick(local, remote, idOf, stamp, idOf(local[i])) == Some(local[i])
  {
    LastWithUnique(local, idOf, i);
    PickSkip(local, remote, idOf, stamp, idOf(local[i]), 0);
    assert remote[..0] == [];
  }

  /** Last write wins, an id only the remote side has: the remote item is taken. */
  lemma MergeTakesRemoteOnly<T>(local: seq<T>, remote: seq<T>, idOf: T -> string, stamp: T -> int, j: nat)
    requires Seqs.UniqueIds(remote, idOf)
    requires j < |remote| && idOf(remote[j]) != ""
    requires forall i :: 0 <= i < |local| ==> idOf(local[i]) != idOf(remote[j])
    ensures Pick(local, remote, idOf, stamp, idOf(remote[j])) == Some(remote[j])
  {
    var id := idOf(remote[j]);
    LastWithDefined(local, idOf, id);
    PickSkip(local, remote, idOf, stamp, id, j + 1);
    PickSkip(local, remote[..j], idOf, stamp, id, 0);
    assert remote[..j][..0] == [];
    assert remote[..j + 1][..j] == remote[..j];
  }

  /**
   * Last write wins, an id both sides have: the remote item wins exactly
   * when its timestamp is not older than the local one.
   */
  lemma MergeConflict<T>(local: seq<T>, remote: seq<T>, idOf: T -> string, stamp: T -> int, i: nat, j: nat)
    requires Seqs.UniqueIds(local, idOf) && Seqs.UniqueIds(remote, idOf)
    requires i < |local| && j < |remote| && idOf(local[i]) == idOf(remote[j]) != ""
    ensures stamp(remote[j]) >= stamp(local[i]) ==> Pick(local, remote, idOf, stamp, idOf(local[i])) == Some(remote[j])
    ensures stamp(remote[j]) < stamp(local[i]) ==> Pick(local, remote, idOf, stamp, idOf(local[i])) == Some(local[i])
  {
    var id := idOf(remote[j]);
    LastWithUnique(local, idOf, i);
    PickSkip(local, remote, idOf, stamp, id, j + 1);
    PickSkip(local, remote[..j], idOf, stamp, id, 0);
    assert remote[..j][..0] == [];
    assert remote[..j + 1][..j] == remote[..j];
  }

  // ----- the merge, as the source writes it

  /** The insertion-ordered map after the local pass over `s`. */
  ghost predicate LocalPass<T>(keys: seq<string>, vals: map<string, T>, s: seq<T>, idOf: T -> string)
  {
    && keys == FirstIds(s, idOf)
    && (forall k :: k in vals <==> k in keys)
    && (forall k :: k in vals ==> LastWith(s, idOf, k) == Some(vals[k]))
    && (forall k :: k !in vals ==> LastWith(s, idOf, k).None?)
  }

  /** The insertion-ordered map after the remote pass over `remote`. */
  ghost predicate RemotePass<T>(keys: seq<string>, vals: map<string, T>, local: seq<T>, remote: seq<T>, idOf: T -> string, stamp: T -> int)
  {
    && keys == FirstIds(local + remote, idOf)
    && (forall k :: k in vals <==> k in keys)
    && (forall k :: k in vals ==> Pick(local, remote, idOf, stamp, k) == Some(vals[k]))
    && (forall k :: k !in vals ==> Pick(local, remote, idOf, stamp, k).None?)
  }

  lemma LocalStep<T>(keys: seq<string>, vals: map<string, T>, s: seq<T>, x: T, idOf: T -> string)
    requires LocalPass(keys, vals, s, idOf)
    ensures var id := idOf(x);
            LocalPass(if id == "" || id in vals then keys else keys + [id],
                      if id == "" then vals else vals[id := x], s + [x], idOf)
  {
    var t := s + [x];
    var id := idOf(x);
    assert t[..|t| - 1] == s;
    assert FirstIds(t, idOf) == if id == "" || id in keys then keys else keys + [id];
    forall k ensures LastWith(t, idOf, k) == if k == id && id != "" then Some(x) else LastWith(s, idOf, k) {
    }
  }

  lemma RemoteStep<T>(keys: seq<string>, vals: map<string, T>, local: seq<T>, remote: seq<T>, x: T, idOf: T -> string, stamp: T -> int)
    requires RemotePass(keys, vals, local, remote, idOf, stamp)
    ensures var id := idOf(x);
            RemotePass(if id == "" || id in vals then keys else keys + [id],
                       if id == "" then vals
                       else if id !in vals || stamp(x) >= stamp(vals[id]) then vals[id := x]
                       else vals,
                       local, remote + [x], idOf, stamp)
  {
    var r := remote + [x];
    assert r[..|r| - 1] == remote;
    var t := local + r;
    assert t[..|t| - 1] == local + remote;
  }

  lemma LocalThenRemote<T>(keys: seq<string>, vals: map<string, T>, local: seq<T>, idOf: T -> string, stamp: T -> int)
    requires LocalPass(keys, vals, local, idOf)
    ensures RemotePass(keys, vals, local, [], idOf, stamp)
  {
    assert local + [] == local;
  }

  lemma RemotePassValues<T>(keys: seq<string>, vals: map<string, T>, local: seq<T>, remote: seq<T>, idOf: T -> string, stamp: T -> int)
    requires RemotePass(keys, vals, local, remote, idOf, stamp)
    ensures forall k :: 0 <= k < |keys| ==> keys[k] in vals
    ensures seq(|keys|, k requires 0 <= k < |keys| && keys[k] in vals => vals[keys[k]]) == MergedValues(local, remote, idOf, stamp)
  {
    assert forall k :: 0 <= k < |keys| ==> keys[k] in keys;
  }

  /**
   * `#mergeCollection(localItems, remoteItems)`: fill an insertion-ordered
   * map from the local items, let the remote items in over it, and sort the
   * values by order.
   */
  method MergeCollection<T>(local: seq<T>, remote: seq<T>, idOf: T -> string, stamp: T -> int, orderOf: T -> Num)
    returns (r: seq<T>)
    ensures r == Store.SortByOrder(MergedValues(local, remote, idOf, stamp), orderOf)
  {
    var keys, vals := FillLocal(local, idOf);
    LocalThenRemote(keys, vals, local, idOf, stamp);
    keys, vals := FillRemote(keys, vals, local, remote, idOf, stamp);
    RemotePassValues(keys, vals, local, remote, idOf, stamp);
    var values := seq(|keys|, k requires 0 <= k < |keys| && keys[k] in vals => vals[keys[k]]);
    r := Store.SortByOrder(values, orderOf);
  }

  /** The first loop of `#mergeCollection`: every local item with an id, the last one per id winning. */
  method FillLocal<T>(local: seq<T>, idOf: T -> string) returns (keys: seq<string>, vals: map<string, T>)
    ensures LocalPass(keys, vals, local, idOf)
  {
    keys, vals := [], map[];
    var i := 0;
    while i < |local|
      invariant 0 <= i <= |local|
      invariant LocalPass(keys, vals, local[..i], idOf)
    {
      var item := local[i];
      LocalStep(keys, vals, local[..i], item, idOf);
      assert local[..i + 1] == local[..i] + [item];
      var id := idOf(item);
      if id != "" {
        if id !in vals {
          keys := keys + [id];
        }
        vals := vals[id := item];
      }
      i := i + 1;
    }
    assert local[..i] == local;
  }

  /** The second loop of `#mergeCollection`: a remote item goes in unless the held one is newer. */
  method FillRemote<T>(keys0: seq<string>, vals0: map<string, T>, local: seq<T>, remote: seq<T>, idOf: T -> string, stamp: T -> int)
    returns (keys: seq<string>, vals: map<string, T>)
    requires RemotePass(keys0, vals0, local, [], idOf, stamp)
    ensures RemotePass(keys, vals, local, remote, idOf, stamp)
  {
    keys, vals := keys0, vals0;
    assert remote[..0] == [];
    var j := 0;
    while j < |remote|
      invariant 0 <= j <= |remote|
      invariant RemotePass(keys, vals, local, remote[..j], idOf, stamp)
    {
      var item := remote[j];
      var id := idOf(item);
      ghost var keysBefore, valsBefore := keys, vals;
      if id != "" {
        if id !in vals {
          keys := keys + [id];
          vals := vals[id := item];
        } else if stamp(item) >= stamp(vals[id]) {
          vals := vals[id := item];
        }
      }
      assert keys == if id == "" || id in valsBefore then keysBefore else keysBefore + [id];
      assert vals == if id == "" then valsBefore
                     else if id !in valsBefore || stamp(item) >= stamp(valsBefore[id]) then valsBefore[id := item]
                     else valsBefore;
      RemoteStep(keysBefore, valsBefore, local, remote[..j], item, idOf, stamp);
      assert remote[..j + 1] == remote[..j] + [item];
      j := j + 1;
    }
    assert remote[..j] == remote;
  }

  /**
   * The merged collection: ids unique and non-empty, one item for each id
   * either side carries (`FirstIds`), each item the one `Pick` chose for its
   * id, and the whole sorted by order.
   */
  lemma MergeCollectionSpec<T(!new)>(local: seq<T>, remote: seq<T>, idOf: T -> string, stamp: T -> int, orderOf: T -> Num)
    ensures var r := Store.SortByOrder(MergedValues(local, remote, idOf, stamp), orderOf);
            && Seqs.UniqueIds(r, idOf)
            && |r| == |FirstIds(local + remote, idOf)|
            && (forall k :: 0 <= k < |r| ==>
                  idOf(r[k]) in FirstIds(local + remote, idOf) && Pick(local, remote, idOf, stamp, idOf(r[k])) == Some(r[k]))
            && (forall id :: id in FirstIds(local + remote, idOf) ==> exists k :: 0 <= k < |r| && idOf(r[k]) == id)
            && (forall i, j :: 0 <= i < j < |r| ==> Store.OrderKey(orderOf(r[i])) <= Store.OrderKey(orderOf(r[j])))
  {
    var v := MergedValues(local, remote, idOf, stamp);
    var keys := FirstIds(local + remote, idOf);
    var r := Store.SortByOrder(v, orderOf);
    FirstIdsSpec(local + remote, idOf);
    Store.SortByOrderSpec(v, orderOf);
    assert forall k :: 0 <= k < |v| ==> idOf(v[k]) == keys[k];
    Seqs.PermutationKeepsUniqueIds(v, r, idOf);
    forall k | 0 <= k < |r|
      ensures idOf(r[k]) in keys && Pick(local, remote, idOf, stamp, idOf(r[k])) == Some(r[k])
    {
      assert r[k] in multiset(v);
      var m :| 0 <= m < |v| && v[m] == r[k];
    }
    forall id | id in keys
      ensures exists k :: 0 <= k < |r| && idOf(r[k]) == id
    {
      var m :| 0 <= m < |keys| && keys[m] == id;
      assert v[m] in multiset(r);
      var k :| 0 <= k < |r| && r[k] == v[m];
    }
  }

  // ----- the cloud state

  /**
   * A pulled backup's state: `version` when it has one, its collections
   * (an absent or null one is empty), and its `settings` value.
   */
  datatype RemoteState = RemoteState(version: Option<int>, projects: seq<ProjectModel.Project>, tasks: seq<TaskModel.Task>, settings: Js)

  /** The conflict timestamp of an item: its parsed `updatedAt`. */
  function TaskStamp(c: Dates.Clock): TaskModel.Task -> int
  {
    (t: TaskModel.Task) => ParseTimestamp(c, Some(t.updatedAt))
  }

  function ProjectStamp(c: Dates.Clock): ProjectModel.Project -> int
  {
    (p: ProjectModel.Project) => ParseTimestamp(c, Some(p.updatedAt))
  }

  /**
   * `{...localState.settings, ...(remoteState.settings || {})}` on the two
   * settings the app reads: a key the remote object has wins with its value
   * as it is, checked or not; a missing key keeps the local setting.
   */
  function OverlaySettings(local: Settings, remote: Js): (r: Settings)
    ensures HasOwn(remote, "removeProjectBehavior") ==>
              BehaviorValue(r.removeProjectBehavior) == remote.fields["removeProjectBehavior"]
    ensures !HasOwn(remote, "removeProjectBehavior") ==> r.removeProjectBehavior == local.removeProjectBehavior
    ensures HasOwn(remote, "timeFormat") ==> FormatValue(r.timeFormat) == remote.fields["timeFormat"]
    ensures !HasOwn(remote, "timeFormat") ==> r.timeFormat == local.timeFormat
  {
    Settings(
      if HasOwn(remote, "removeProjectBehavior") then BehaviorOf(remote.fields["removeProjectBehavior"])
      else local.removeProjectBehavior,
      if HasOwn(remote, "timeFormat") then FormatOf(remote.fields["timeFormat"]) else local.timeFormat)
  }

  /**
   * `#mergeCloudState(remoteState)`: remote top-level keys over local ones,
   * both collections merged, and the remote settings spread over the local
   * ones without any check.
   */
  function MergedState(c: Dates.Clock, local: AppState, remote: RemoteState): (r: AppState)
    ensures remote.version.Some? ==> r.version == remote.version.value
    ensures remote.version.None? ==> r.version == local.version
    ensures r.settings == OverlaySettings(local.settings, remote.settings)
  {
    AppState(
      remote.version.UnwrapOr(local.version),
      Store.SortByOrder(MergedValues(local.projects, remote.projects, Store.ProjectId, ProjectStamp(c)), Store.ProjectOrder),
      Store.SortByOrder(MergedValues(local.tasks, remote.tasks, Store.TaskId, TaskStamp(c)), Store.TaskOrder),
      OverlaySettings(local.settings, remote.settings))
  }

  /**
   * A remote `removeProjectBehavior` that is not exactly
   * `'delete-with-tasks'` replaces a local "delete with tasks": a later
   * `deleteProject` without an explicit behaviour then moves the project's
   * tasks to the inbox instead of deleting them.
   */
  lemma MergedBehaviorMovesToInbox(c: Dates.Clock, local: AppState, remote: RemoteState, id: string, i: nat)
    requires HasOwn(remote.settings, "removeProjectBehavior")
    requires remote.settings.fields["removeProjectBehavior"] != Str("delete-with-tasks")
    requires i < |local.tasks| && local.tasks[i].projectId == Some(id)
    ensures var merged := MergedState(c, local, remote);
            Store.ResolveBehavior(Undefined, merged.settings.removeProjectBehavior) != DeleteWithTasks
    ensures var merged := MergedState(c, local, remote);
            forall k :: 0 <= k < |merged.tasks| && merged.tasks[k].projectId == Some(id) ==>
              Store.DeleteProjectIn(merged, id, Undefined).tasks[k] == merged.tasks[k].(projectId := None)
  {
    var merged := MergedState(c, local, remote);
    Store.DeleteProjectSpec(merged, id, Undefined);
  }

  /** Merging with an empty remote state keeps local settings and version. */
  lemma MergeEmptyRemote(c: Dates.Clock, local: AppState)
    ensures MergedState(c, local, RemoteState(None, [], [], Undefined)).settings == local.settings
    ensures MergedState(c, local, RemoteState(None, [], [], Undefined)).version == local.version
  {
  }

  /**
   * The merged tasks: ids unique, one task per id either side has, a task
   * both sides have taken from the remote side exactly when its `updatedAt`
   * is not older, and the list in order.
   */
  lemma MergedTasksSpec(c: Dates.Clock, local: AppState, remote: RemoteState, i: nat, j: nat)
    requires Store.UniqueIds(local.tasks) && Store.UniqueIds(remote.tasks)
    requires i < |local.tasks| && j < |remote.tasks| && local.tasks[i].id == remote.tasks[j].id != ""
    ensures var r := MergedState(c, local, remote).tasks;
            && Seqs.UniqueIds(r, Store.TaskId)
            && (forall a, b :: 0 <= a < b < |r| ==> Store.OrderKey(r[a].order) <= Store.OrderKey(r[b].order))
            && (ParseTimestamp(c, Some(remote.tasks[j].updatedAt)) >= ParseTimestamp(c, Some(local.tasks[i].updatedAt))
                <==> remote.tasks[j] in r)
  {
    var stamp := TaskStamp(c);
    var v := MergedValues(local.tasks, remote.tasks, Store.TaskId, stamp);
    var r := MergedState(c, local, remote).tasks;
    MergeCollectionSpec(local.tasks, remote.tasks, Store.TaskId, stamp, Store.TaskOrder);
    assert Seqs.UniqueIds(local.tasks, Store.TaskId) && Seqs.UniqueIds(remote.tasks, Store.TaskId);
    MergeConflict(local.tasks, remote.tasks, Store.TaskId, stamp, i, j);
    var id := local.tasks[i].id;
    assert id in FirstIds(local.tasks + remote.tasks, Store.TaskId) by {
      FirstIdsSpec(local.tasks + remote.tasks, Store.TaskId);
      assert (local.tasks + remote.tasks)[i].id == id;
    }
    var k :| 0 <= k < |r| && r[k].id == id;
    if remote.tasks[j] in r {
      var m :| 0 <= m < |r| && r[m] == remote.tasks[j];
      assert m == k;
    }
  }

  /** `#mergeCloudState(remoteState)`, computed with the two map-filling merges. */
  method MergeCloudState(c: Dates.Clock, local: AppState, remote: RemoteState) returns (r: AppState)
    ensures r == MergedState(c, local, remote)
  {
    var tasks := MergeCollection(local.tasks, remote.tasks, Store.TaskId, TaskStamp(c), Store.TaskOrder);
    var projects := MergeCollection(local.projects, remote.projects, Store.ProjectId, ProjectStamp(c), Store.ProjectOrder);
    r := AppState(remote.version.UnwrapOr(local.version), projects, tasks, OverlaySettings(local.settings, remote.settings));
  }

  // ----- restoring from the cloud

  /** What `pullBackup()` resolved to: its `state`, and its `meta.syncedAt` when truthy. */
  datatype Backup = Backup(state: Option<RemoteState>, syncedAt: Option<string>)

  /** `backup.meta?.syncedAt || null`. */
  function SyncedAt(backup: Backup): (r: Option<string>)
    ensures r.Some? ==> r.value != ""
    ensures backup.syncedAt.Some? && backup.syncedAt.value != "" ==> r == backup.syncedAt
  {
    if backup.syncedAt == Some("") then None else backup.syncedAt
  }

  /**
   * Whether a finished pull replaces the state: there is a remote state, and
   * the restore is forced, or the backup has no stamp, or its stamp differs
   * from the last one restored.
   */
  predicate ShouldRestore(backup: Option<Backup>, force: bool, lastSyncedAt: Option<string>)
  {
    && backup.Some? && backup.value.state.Some?
    && (force || SyncedAt(backup.value).None? || lastSyncedAt != SyncedAt(backup.value))
  }

  /** A backup already restored is not restored again unless forced. */
  lemma SameBackupSkipped(backup: Backup, lastSyncedAt: Option<string>)
    requires SyncedAt(backup).Some? && lastSyncedAt == SyncedAt(backup)
    ensures !ShouldRestore(Some(backup), false, lastSyncedAt)
    ensures backup.state.Some? ==> ShouldRestore(Some(backup), true, lastSyncedAt)
  {
  }

  /** The route defaults `#getRouteDefaults()` offers a new task. */
  function RouteDefaults(route: Option<Router.Route>, todayAt9: string, tomorrowAt9: string): (r: Js)
    ensures r.Object?
    ensures route.None? ==> r.fields == map[]
    ensures route.Some? && route.value.name == "project" ==>
              TaskModel.ProjectIdOf(Get(r, "projectId")) == (if Router.Param(route.value, "id") == "" then None else Some(Router.Param(route.value, "id")))
    ensures route.Some? && route.value.name == "tag" && Router.Param(route.value, "name") != "" ==>
              Get(r, "tags") == Array([Str(Router.Param(route.value, "name"))])
    ensures route.Some? && route.value.name in {"today", "upcoming"} ==>
              Get(r, "dueAt") == Str(if route.value.name == "today" then todayAt9 else tomorrowAt9) && Get(r, "isAllDay") == Bool(true)
    ensures route.Some? && route.value.name !in {"project", "tag", "today", "upcoming"} ==> r.fields == map[]
  {
    match route
    case None => Object(map[])
    case Some(rt) =>
      if rt.name == "project" then
        var id := Router.Param(rt, "id");
        Object(map["projectId" := if id != "" then Str(id) else Null])
      else if rt.name == "tag" then
        var name := Router.Param(rt, "name");
        if name != "" then Object(map["tags" := Array([Str(name)])]) else Object(map[])
      else if rt.name == "today" then Object(map["dueAt" := Str(todayAt9), "isAllDay" := Bool(true)])
      else if rt.name == "upcoming" then Object(map["dueAt" := Str(tomorrowAt9), "isAllDay" := Bool(true)])
      else Object(map[])
  }

  /** The inbox route, `#/project/inbox`. */
  const InboxRoute := Router.Route("project", map["id" := Some(ProjectView.InboxId)])

  /**
   * The route defaults with the inbox read as it is by the view: on
   * `#/project/inbox` the project id is null, not the id `inbox`.
   */
  function RouteDefaultsCorrected(route: Option<Router.Route>, todayAt9: string, tomorrowAt9: string): (r: Js)
    ensures r.Object?
    ensures route.Some? && route.value.name == "project" ==>
              TaskModel.ProjectIdOf(Get(r, "projectId"))
              == (if Router.Param(route.value, "id") in {"", ProjectView.InboxId} then None else Some(Router.Param(route.value, "id")))
    ensures !(route.Some? && route.value.name == "project") ==> r == RouteDefaults(route, todayAt9, tomorrowAt9)
  {
    if route.Some? && route.value.name == "project" && Router.Param(route.value, "id") == ProjectView.InboxId
    then Object(map["projectId" := Null])
    else RouteDefaults(route, todayAt9, tomorrowAt9)
  }

  /** `defaults?.tags?.length`: the route offers tags. */
  predicate HasDefaultTags(defaults: Js)
  {
    Get(defaults, "tags").Array? && |Get(defaults, "tags").items| > 0
  }

  /**
   * `#handleQuickAdd(data)`: the payload passed to `addTask`, or None when
   * the title is falsy. Fields of `data` override the route defaults, and
   * the route's tags are copied when `data` has no truthy `tags`.
   */
  function QuickAddPayload(data: Js, defaults: Js): (r: Option<Js>)
    requires defaults.Object?
    ensures r.None? <==> !Truthy(Get(data, "title"))
    ensures r.Some? ==> r.value.Object?
    ensures r.Some? ==> forall k :: k in data.fields && k != "tags" ==> Get(r.value, k) == Get(data, k)
    ensures r.Some? ==> forall k :: k in defaults.fields && k !in data.fields ==> Get(r.value, k) == Get(defaults, k)
    ensures r.Some? ==> forall k :: k in r.value.fields ==> k in data.fields || k in defaults.fields
    ensures r.Some? && HasDefaultTags(defaults) && !Truthy(Get(data, "tags")) ==> Get(r.value, "tags") == Get(defaults, "tags")
    ensures r.Some? && !(HasDefaultTags(defaults) && !Truthy(Get(data, "tags"))) && "tags" in data.fields ==>
              Get(r.value, "tags") == Get(data, "tags")
  {
    if !Truthy(Get(data, "title")) then None
    else
      var payload := defaults.fields + data.fields;
      if HasDefaultTags(defaults) && !Truthy(Get(data, "tags")) then
        Some(Object(payload["tags" := Get(defaults, "tags")]))
      else Some(Object(payload))
  }

  /**
   * On a project route, a quick-added task lands in that project unless the
   * data names a project itself; on a tag route it carries that tag unless
   * the data has tags of its own.
   */
  lemma QuickAddUsesRoute(c: Dates.Clock, data: Js, route: Router.Route, todayAt9: string, tomorrowAt9: string,
                          now: string, nowMs: int, freshId: string, subtaskIds: nat -> string)
    requires Truthy(Get(data, "title"))
    ensures var payload := QuickAddPayload(data, RouteDefaults(Some(route), todayAt9, tomorrowAt9)).value;
            var created := TaskModel.CreateTask(c, payload, now, nowMs, freshId, subtaskIds);
            && (route.name == "project" && "projectId" !in data.fields && Router.Param(route, "id") != "" && created.Ok? ==>
                  created.value.projectId == Some(Router.Param(route, "id")))
            && (route.name == "tag" && Router.Param(route, "name") != "" && !Truthy(Get(data, "tags")) && created.Ok? ==>
                  created.value.tags == TaskModel.NormalizeTags(Array([Str(Router.Param(route, "name"))])))
  {
  }

  /**
   * As written, a task quick-added on the inbox route is stored with the
   * project id `inbox`, so the inbox view, which lists only tasks without a
   * project, does not show it.
   */
  lemma QuickAddInboxHidden(c: Dates.Clock, data: Js, todayAt9: string, tomorrowAt9: string, now: string, nowMs: int,
                            freshId: string, subtaskIds: nat -> string, projects: seq<ProjectModel.Project>, tasks: seq<TaskModel.Task>)
    requires Truthy(Get(data, "title")) && "projectId" !in data.fields
    ensures var payload := QuickAddPayload(data, RouteDefaults(Some(InboxRoute), todayAt9, tomorrowAt9)).value;
            var created := TaskModel.CreateTask(c, payload, now, nowMs, freshId, subtaskIds);
            created.Ok? ==>
              && created.value.projectId == Some(ProjectView.InboxId)
              && created.value !in ProjectView.ForRoute(projects, Some(ProjectView.InboxId), tasks + [created.value]).section.tasks
  {
    assert Router.Param(InboxRoute, "id") == ProjectView.InboxId;
    QuickAddUsesRoute(c, data, InboxRoute, todayAt9, tomorrowAt9, now, nowMs, freshId, subtaskIds);
    var payload := QuickAddPayload(data, RouteDefaults(Some(InboxRoute), todayAt9, tomorrowAt9)).value;
    var created := TaskModel.CreateTask(c, payload, now, nowMs, freshId, subtaskIds);
    if created.Ok? {
      ProjectView.InboxRoute(projects, tasks + [created.value], created.value);
    }
  }

  /**
   * With the corrected defaults, a task quick-added on the inbox route has
   * no project, and the inbox view lists it once it is in the state and open.
   */
  lemma QuickAddInboxShown(c: Dates.Clock, data: Js, todayAt9: string, tomorrowAt9: string, now: string, nowMs: int,
                           freshId: string, subtaskIds: nat -> string, projects: seq<ProjectModel.Project>, tasks: seq<TaskModel.Task>)
    requires Truthy(Get(data, "title")) && "projectId" !in data.fields
    ensures var payload := QuickAddPayload(data, RouteDefaultsCorrected(Some(InboxRoute), todayAt9, tomorrowAt9)).value;
            var created := TaskModel.CreateTask(c, payload, now, nowMs, freshId, subtaskIds);
            created.Ok? ==>
              && created.value.projectId == None
              && (!created.value.IsDone() ==>
                    created.value in ProjectView.ForRoute(projects, Some(ProjectView.InboxId), tasks + [created.value]).section.tasks)
  {
    assert Router.Param(InboxRoute, "id") == ProjectView.InboxId;
    var defaults := RouteDefaultsCorrected(Some(InboxRoute), todayAt9, tomorrowAt9);
    assert defaults == Object(map["projectId" := Null]);
    var payload := QuickAddPayload(data, defaults).value;
    assert Get(payload, "projectId") == Null;
    var created := TaskModel.CreateTask(c, payload, now, nowMs, freshId, subtaskIds);
    if created.Ok? {
      ProjectView.InboxRoute(projects, tasks + [created.value], created.value);
    }
  }

  /**
   * `#handleTaskReorder(taskId, index, projectId)`: the scope handed to
   * `reorderTask`. A scope from the view wins (None stands for null and
   * undefined); otherwise a project route gives its id, or null for an
   * empty id, and any other route gives null.
   */
  function ReorderScope(viewScope: Option<string>, route: Option<Router.Route>): (r: Option<string>)
    ensures viewScope.Some? ==> r == viewScope
    ensures viewScope.None? && route.Some? && route.value.name == "project" ==>
              r == (if Router.Param(route.value, "id") == "" then None else Some(Router.Param(route.value, "id")))
    ensures viewScope.None? && (route.None? || route.value.name != "project") ==> r.None?
  {
    if viewScope.Some? then viewScope
    else match route
      case Some(rt) =>
        if rt.name == "project" && Router.Param(rt, "id") != "" then Some(Router.Param(rt, "id")) else None
      case None => None
  }

  /** The handler's scope with the inbox route's id read as null, as the view reads it. */
  function ReorderScopeCorrected(viewScope: Option<string>, route: Option<Router.Route>): (r: Option<string>)
    ensures viewScope.Some? ==> r == viewScope
    ensures viewScope.None? && route.Some? && route.value.name == "project" ==>
              r == (if Router.Param(route.value, "id") in {"", ProjectView.InboxId} then None else Some(Router.Param(route.value, "id")))
    ensures r != ReorderScope(viewScope, route) ==> r.None? && ReorderScope(viewScope, route) == Some(ProjectView.InboxId)
  {
    var scope := ReorderScope(viewScope, route);
    if viewScope.None? && scope == Some(ProjectView.InboxId) then None else scope
  }

  /**
   * As written, a drag-reorder in the inbox view changes nothing: the view
   * hands the handler null, the handler substitutes the route id `inbox`,
   * and no task in the state carries that project id.
   */
  lemma InboxReorderIgnored(s: AppState, taskId: string, destinationIndex: int)
    requires forall t :: t in s.tasks ==> t.projectId != Some(ProjectView.InboxId)
    ensures ProjectView.NormalizedProjectId(Null, None, Some(ProjectView.InboxId)) == Null
    ensures ReorderScope(None, Some(InboxRoute)) == Some(ProjectView.InboxId)
    ensures Store.ReorderTaskIn(s, taskId, destinationIndex, ReorderScope(None, Some(InboxRoute))) == s
  {
    assert Router.Param(InboxRoute, "id") == ProjectView.InboxId;
    Store.TasksInEmpty(s.tasks, Some(ProjectView.InboxId));
    assert Store.FindTask(Store.TasksIn(s.tasks, Some(ProjectView.InboxId)), taskId).None?;
  }

  /**
   * With the corrected scope, the same drag reorders the inbox: tasks of a
   * project keep everything, and when the dragged task is in the inbox
   * every inbox task is renumbered to a multiple of 1000.
   */
  lemma InboxReorderApplies(s: AppState, taskId: string, destinationIndex: int, i: nat)
    requires Store.UniqueIds(s.tasks) && i < |s.tasks|
    ensures ReorderScopeCorrected(None, Some(InboxRoute)) == None
    ensures var r := Store.ReorderTaskIn(s, taskId, destinationIndex, ReorderScopeCorrected(None, Some(InboxRoute)));
            && (s.tasks[i].projectId.Some? ==> r.tasks[i] == s.tasks[i])
            && (s.tasks[i].projectId.None? && (exists j :: 0 <= j < |s.tasks| && s.tasks[j].projectId.None? && s.tasks[j].id == taskId) ==>
                  exists k :: 0 < k <= |s.tasks| && r.tasks[i].order == Finite(k * 1000))
  {
    assert Router.Param(InboxRoute, "id") == ProjectView.InboxId;
    Store.ReorderTaskSpec(s, taskId, destinationIndex, None);
    if s.tasks[i].projectId.None? && exists j :: 0 <= j < |s.tasks| && s.tasks[j].projectId.None? && s.tasks[j].id == taskId {
      Store.ReorderResequencesScope(s, taskId, destinationIndex, None, i);
    }
  }

  /**
   * `#handleToggleSubtask(task, subtaskId, checked)`: the `subtasks` update
   * sent to `updateTask`, every subtask as a plain object, the one with the
   * matching id with `done` set to `checked`; None without a task or an id.
   */
  function ToggleSubtaskUpdate(task: Option<TaskModel.Task>, subtaskId: string, checked: bool): (r: Option<Js>)
    ensures r.None? <==> task.None? || subtaskId == ""
    ensures r.Some? ==> Get(r.value, "subtasks") == Array(TaskModel.SubtasksToJs(Toggled(task.value.subtasks, subtaskId, checked)))
  {
    if task.None? || subtaskId == "" then None
    else Some(Object(map["subtasks" := Array(TaskModel.SubtasksToJs(Toggled(task.value.subtasks, subtaskId, checked)))]))
  }

  /** The subtasks with `done` set to `checked` on those whose id matches. */
  function Toggled(subs: seq<TaskModel.Subtask>, subtaskId: string, checked: bool): (r: seq<TaskModel.Subtask>)
    ensures |r| == |subs|
    ensures forall k :: 0 <= k < |r| ==> r[k].id == subs[k].id && r[k].title == subs[k].title
    ensures forall k :: 0 <= k < |r| ==> r[k].done == if subs[k].id == subtaskId then checked else subs[k].done
  {
    seq(|subs|, k requires 0 <= k < |subs| => if subs[k].id == subtaskId then subs[k].(done := checked) else subs[k])
  }

  /**
   * Sent through `updateTask`, the toggle update of a task whose subtasks are
   * in normal form changes `done` of the matching subtask only: every other
   * field but `updatedAt` is kept.
   */
  lemma ToggleSubtaskEffect(c: Dates.Clock, t: TaskModel.Task, subtaskId: string, checked: bool,
                            now: string, nowMs: int, subtaskIds: nat -> string)
    requires subtaskId != ""
    requires forall k :: 0 <= k < |t.subtasks| ==> TaskModel.Normal(t.subtasks[k])
    ensures var u := ToggleSubtaskUpdate(Some(t), subtaskId, checked).value;
            TaskModel.UpdateTask(c, Some(t), u, now, nowMs, subtaskIds)
              == Ok(t.(subtasks := Toggled(t.subtasks, subtaskId, checked), updatedAt := now))
  {
    var toggled := Toggled(t.subtasks, subtaskId, checked);
    var u := ToggleSubtaskUpdate(Some(t), subtaskId, checked).value;
    assert forall k :: 0 <= k < |toggled| ==> TaskModel.Normal(toggled[k]);
    NormalizeSubtasksJs(toggled, subtaskIds);
    TaskModel.SubtasksOnlyUpdate(c, t, TaskModel.SubtasksToJs(toggled), now, nowMs, subtaskIds);
  }

  /** Subtasks in normal form come back unchanged from `normalizeSubtasks`. */
  lemma NormalizeSubtasksJs(subs: seq<TaskModel.Subtask>, subtaskIds: nat -> string)
    requires forall k :: 0 <= k < |subs| ==> TaskModel.Normal(subs[k])
    ensures TaskModel.NormalizeSubtasks(Array(TaskModel.SubtasksToJs(subs)), subtaskIds) == subs
  {
    TaskModel.NormalizeSubtasksFixpoint(subs, 0, subtaskIds);
    assert subs[0..] == subs;
  }

  /**
   * `#handleToggleTimeFormat()`: the settings update naming the other clock.
   * `timeFormat || '24h'` reads a falsy value as the 24-hour clock, so only
   * then, or on `'24h'` itself, does the toggle ask for `'12h'`.
   */
  function ToggleTimeFormatUpdate(settings: Settings): (r: Js)
    ensures Get(r, "removeProjectBehavior") == Undefined
    ensures Get(r, "timeFormat") == Str("12h") || Get(r, "timeFormat") == Str("24h")
    ensures Get(r, "timeFormat") == Str("12h") <==>
              !Truthy(FormatValue(settings.timeFormat)) || FormatValue(settings.timeFormat) == Str("24h")
    ensures settings.timeFormat == H24 ==> Get(r, "timeFormat") == Str("12h")
    ensures settings.timeFormat == H12 ==> Get(r, "timeFormat") == Str("24h")
  {
    var current := if Truthy(FormatValue(settings.timeFormat)) then FormatValue(settings.timeFormat) else Str("24h");
    Object(map["timeFormat" := Str(if current == Str("24h") then "12h" else "24h")])
  }

  /**
   * Toggling sets one of the two clocks, flips a known one and touches
   * nothing else; from a known clock, toggling twice restores the state.
   */
  lemma ToggleTimeFormatTwice(s: AppState)
    ensures var once := Store.UpdateSettingsIn(s, ToggleTimeFormatUpdate(s.settings));
            && once.settings.timeFormat != s.settings.timeFormat
            && (once.settings.timeFormat == H12 || once.settings.timeFormat == H24)
            && once.settings.removeProjectBehavior == s.settings.removeProjectBehavior
            && (!s.settings.timeFormat.OtherFormat? ==> Store.UpdateSettingsIn(once, ToggleTimeFormatUpdate(once.settings)) == s)
  {
  }

  // ----- the application object

  /**
   * `App`: the state it last saw, the current route, the restore gate and
   * the snapshot of the last state pushed. `pushes` lists the states passed
   * to `schedulePush`, `replaced` the states passed to `replaceState`.
   */
  class App {
    var state: AppState
    var route: Option<Router.Route>
    var lastCloudSyncedAt: Option<string>
    var isRestoringCloud: bool
    var lastSyncSnapshot: AppState
    var pushes: seq<AppState>
    var replaced: seq<AppState>
    const clock: Dates.Clock

    constructor(c: Dates.Clock, initial: AppState)
      ensures state == initial && lastSyncSnapshot == initial
      ensures route.None? && lastCloudSyncedAt.None? && !isRestoringCloud
      ensures pushes == [] && replaced == [] && clock == c
    {
      state := initial;
      route := None;
      lastCloudSyncedAt := None;
      isRestoringCloud := false;
      lastSyncSnapshot := initial;
      pushes := [];
      replaced := [];
      clock := c;
    }

    /**
     * The `state:changed` subscriber: remember the state, and push it only
     * when it differs from the last snapshot.
     */
    method OnStateChanged(next: AppState)
      modifies this
      ensures state == next && lastSyncSnapshot == next
      ensures pushes == old(pushes) + (if next != old(lastSyncSnapshot) then [next] else [])
      ensures route == old(route) && replaced == old(replaced)
      ensures lastCloudSyncedAt == old(lastCloudSyncedAt) && isRestoringCloud == old(isRestoringCloud)
    {
      state := next;
      if next != lastSyncSnapshot {
        lastSyncSnapshot := next;
        pushes := pushes + [next];
      }
    }

    /** The start of `#restoreFromCloud`: refused while a restore is running. */
    method BeginRestore() returns (started: bool)
      modifies this
      ensures started == !old(isRestoringCloud)
      ensures isRestoringCloud
      ensures state == old(state) && route == old(route) && lastSyncSnapshot == old(lastSyncSnapshot)
      ensures lastCloudSyncedAt == old(lastCloudSyncedAt) && pushes == old(pushes) && replaced == old(replaced)
    {
      started := !isRestoringCloud;
      isRestoringCloud := true;
    }

    /**
     * The rest of `#restoreFromCloud`, once `pullBackup()` settled (None when
     * it threw or found nothing): merge and replace when `ShouldRestore`,
     * then record the stamp; the gate is always reopened.
     */
    method FinishRestore(backup: Option<Backup>, force: bool)
      requires isRestoringCloud
      modifies this
      ensures !isRestoringCloud
      ensures state == old(state) && route == old(route) && pushes == old(pushes)
      ensures ShouldRestore(backup, force, old(lastCloudSyncedAt)) ==>
                var merged := MergedState(clock, old(state), backup.value.state.value);
                && replaced == old(replaced) + [merged]
                && lastSyncSnapshot == merged
                && lastCloudSyncedAt == SyncedAt(backup.value)
      ensures !ShouldRestore(backup, force, old(lastCloudSyncedAt)) ==>
                replaced == old(replaced) && lastSyncSnapshot == old(lastSyncSnapshot)
                && lastCloudSyncedAt == old(lastCloudSyncedAt)
    {
      if ShouldRestore(backup, force, lastCloudSyncedAt) {
        Restore(backup.value);
      }
      isRestoringCloud := false;
    }

    /** The restoring branch: replace with the merged state and record the stamp. */
    method Restore(b: Backup)
      requires b.state.Some?
      modifies this`lastSyncSnapshot, this`replaced, this`lastCloudSyncedAt
      ensures lastSyncSnapshot == MergedState(clock, old(state), b.state.value)
      ensures replaced == old(replaced) + [lastSyncSnapshot]
      ensures lastCloudSyncedAt == SyncedAt(b)
    {
      var merged := MergeCloudState(clock, state, b.state.value);
      lastCloudSyncedAt := SyncedAt(b);
      replaced := replaced + [merged];
      lastSyncSnapshot := merged;
    }

    /**
     * A restore followed by the `state:changed` broadcast of the replaced
     * state: the restored state is taken in and not pushed back.
     */
    method RestoreAndBroadcast(backup: Option<Backup>, force: bool)
      requires isRestoringCloud
      modifies this
      ensures !isRestoringCloud && pushes == old(pushes)
      ensures ShouldRestore(backup, force, old(lastCloudSyncedAt)) ==>
                state == MergedState(clock, old(state), backup.value.state.value)
      ensures !ShouldRestore(backup, force, old(lastCloudSyncedAt)) ==> state == old(state)
    {
      var before := |replaced|;
      FinishRestore(backup, force);
      if |replaced| > before {
        OnStateChanged(replaced[|replaced| - 1]);
      }
    }
  }
}
