// src/components/Sidebar.js: the tag counts and the project list order.
module Sidebar {
  import Text
  import Seqs
  import Store
  import TaskModel
  import ProjectModel

  type Task = TaskModel.Task

  /** Occurrences of `tag` in one tag list. */
  function CountIn(tags: seq<string>, tag: string): nat
  {
    if |tags| == 0 then 0
    else CountIn(tags[..|tags| - 1], tag) + (if tags[|tags| - 1] == tag then 1 else 0)
  }

  /** Occurrences of `tag` across the tag lists of all tasks. */
  function Occurrences(tasks: seq<Task>, tag: string): nat
  {
    if |tasks| == 0 then 0
    else Occurrences(tasks[..|tasks| - 1], tag) + CountIn(tasks[|tasks| - 1].tags, tag)
  }

  datatype TagCount = TagCount(name: string, count: nat)

  function NameOf(e: TagCount): string
  {
    e.name
  }

  /** `cmp(a, b) <= 0` for `a.name.localeCompare(b.name)`. */
  function NameLe(): (TagCount, TagCount) -> bool
  {
    (a: TagCount, b: TagCount) => Text.StrLe(a.name, b.name)
  }

  lemma NameLePreorder()
    ensures Seqs.TotalPreorder(NameLe())
  {
    Text.StrLeTotalOrder();
  }

  /** Every count the map holds is the count over the tasks read so far; absent tags have none. */
  ghost predicate Counted(counts: map<string, nat>, keys: seq<string>, done: seq<Task>, tags: seq<string>)
  {
    && (forall k :: k in counts <==> k in keys)
    && (forall i, j :: 0 <= i < j < |keys| ==> keys[i] != keys[j])
    && (forall k :: k in counts ==> counts[k] == Occurrences(done, k) + CountIn(tags, k) && counts[k] > 0)
    && (forall k :: k !in counts ==> Occurrences(done, k) + CountIn(tags, k) == 0)
  }

  /** `map.set(tag, (map.get(tag) ?? 0) + 1)`, with the map's key order kept beside it. */
  function Bump(counts: map<string, nat>, keys: seq<string>, tag: string): (map<string, nat>, seq<string>)
  {
    if tag in counts then (counts[tag := counts[tag] + 1], keys)
    else (counts[tag := 1], keys + [tag])
  }

  /** Counting one more tag keeps the map in step. */
  lemma CountedStep(counts: map<string, nat>, keys: seq<string>, done: seq<Task>, tags: seq<string>, tag: string)
    requires Counted(counts, keys, done, tags)
    ensures Counted(Bump(counts, keys, tag).0, Bump(counts, keys, tag).1, done, tags + [tag])
  {
    var tags' := tags + [tag];
    assert tags'[..|tags'| - 1] == tags;
    assert forall k :: CountIn(tags', k) == CountIn(tags, k) + (if k == tag then 1 else 0);
    if tag !in counts {
      assert tag !in keys;
      var keys' := keys + [tag];
      assert forall i, j :: 0 <= i < j < |keys'| ==> keys'[i] != keys'[j];
    }
  }

  /** Once a task's tag list is counted, the task joins the tasks read so far. */
  lemma CountedNextTask(counts: map<string, nat>, keys: seq<string>, tasks: seq<Task>, i: int)
    requires 0 <= i < |tasks|
    requires Counted(counts, keys, tasks[..i], tasks[i].tags)
    ensures Counted(counts, keys, tasks[..i + 1], [])
  {
    assert tasks[..i + 1][..i] == tasks[..i];
  }

  /** The inner loop: counts every tag of one task into the map. */
  method CountTags(counts0: map<string, nat>, keys0: seq<string>, ghost done: seq<Task>, tags: seq<string>)
    returns (counts: map<string, nat>, keys: seq<string>)
    requires Counted(counts0, keys0, done, [])
    ensures Counted(counts, keys, done, tags)
  {
    counts, keys := counts0, keys0;
    var j := 0;
    while j < |tags|
      invariant 0 <= j <= |tags|
      invariant Counted(counts, keys, done, tags[..j])
    {
      CountedStep(counts, keys, done, tags[..j], tags[j]);
      assert tags[..j + 1] == tags[..j] + [tags[j]];
      counts, keys := Bump(counts, keys, tags[j]).0, Bump(counts, keys, tags[j]).1;
      j := j + 1;
    }
    assert tags[..j] == tags;
  }

  /** The map's entries, in first-seen order. */
  function Entries(counts: map<string, nat>, keys: seq<string>): (r: seq<TagCount>)
    requires forall k :: k in keys ==> k in counts
    ensures |r| == |keys|
    ensures forall i :: 0 <= i < |r| ==> r[i] == TagCount(keys[i], counts[keys[i]])
  {
    seq(|keys|, i requires 0 <= i < |keys| => TagCount(keys[i], counts[keys[i]]))
  }

  /** Sorting the counted entries keeps every count and every tag. */
  lemma SortedEntriesCounted(counts: map<string, nat>, keys: seq<string>, tasks: seq<Task>, r: seq<TagCount>)
    requires Counted(counts, keys, tasks, [])
    requires multiset(r) == multiset(Entries(counts, keys))
    ensures forall i :: 0 <= i < |r| ==> r[i].count == Occurrences(tasks, r[i].name) && r[i].count > 0
    ensures forall tag :: Occurrences(tasks, tag) > 0 ==> exists i :: 0 <= i < |r| && r[i].name == tag
  {
    var entries := Entries(counts, keys);
    forall tag | Occurrences(tasks, tag) > 0
      ensures exists i :: 0 <= i < |r| && r[i].name == tag
    {
      assert tag in counts;
      var k :| 0 <= k < |keys| && keys[k] == tag;
      assert entries[k] in multiset(r);
      var i :| 0 <= i < |r| && r[i] == entries[k];
    }
    forall i | 0 <= i < |r|
      ensures r[i].count == Occurrences(tasks, r[i].name) && r[i].count > 0
    {
      assert r[i] in multiset(entries);
      var k :| 0 <= k < |entries| && entries[k] == r[i];
    }
  }

  /**
   * `collectTags(tasks)`: one entry per distinct tag, its count the number of
   * times it occurs across all tasks, sorted by name; tasks without tags
   * contribute nothing.
   */
  method CollectTags(tasks: seq<Task>) returns (r: seq<TagCount>)
    ensures forall i, j :: 0 <= i < j < |r| ==> Text.StrLess(r[i].name, r[j].name)
    ensures forall i :: 0 <= i < |r| ==> r[i].count == Occurrences(tasks, r[i].name) && r[i].count > 0
    ensures forall tag :: Occurrences(tasks, tag) > 0 ==> exists i :: 0 <= i < |r| && r[i].name == tag
  {
    var counts: map<string, nat> := map[];
    var keys: seq<string> := [];
    var i := 0;
    while i < |tasks|
      invariant 0 <= i <= |tasks|
      invariant Counted(counts, keys, tasks[..i], [])
    {
      counts, keys := CountTags(counts, keys, tasks[..i], tasks[i].tags);
      CountedNextTask(counts, keys, tasks, i);
      i := i + 1;
    }
    assert tasks[..i] == tasks;
    var entries := Entries(counts, keys);
    r := SortEntries(entries);
    SortedEntriesCounted(counts, keys, tasks, r);
  }

  /** Sorting entries with distinct names by name puts them in strictly ascending order. */
  function SortEntries(entries: seq<TagCount>): (r: seq<TagCount>)
    requires forall i, j :: 0 <= i < j < |entries| ==> entries[i].name != entries[j].name
    ensures multiset(r) == multiset(entries)
    ensures forall i, j :: 0 <= i < j < |r| ==> Text.StrLess(r[i].name, r[j].name)
  {
    var sorted := Seqs.Sort(entries, NameLe());
    NameLePreorder();
    Seqs.SortSorted(entries, NameLe());
    assert Seqs.UniqueIds(entries, NameOf);
    Seqs.PermutationKeepsUniqueIds(entries, sorted, NameOf);
    assert forall i, j :: 0 <= i < j < |sorted| ==> NameLe()(sorted[i], sorted[j]) && sorted[i].name != sorted[j].name;
    sorted
  }

  /** An entry of the project list: the inbox link, then the projects. */
  datatype Entry = Inbox | ProjectEntry(project: ProjectModel.Project)

  /**
   * The project list: the inbox first, then the projects by ascending
   * `order` (a missing order as 0), equal orders in state order.
   */
  function ProjectEntries(projects: seq<ProjectModel.Project>): (r: seq<Entry>)
    ensures |r| == |projects| + 1 && r[0] == Inbox
    ensures forall i :: 1 <= i < |r| ==> r[i] == ProjectEntry(Store.SortByOrder(projects, Store.ProjectOrder)[i - 1])
  {
    var sorted := Store.SortByOrder(projects, Store.ProjectOrder);
    [Inbox] + seq(|sorted|, i requires 0 <= i < |sorted| => ProjectEntry(sorted[i]))
  }

  /** Every project is listed exactly as often as it is stored, in ascending order. */
  lemma ProjectEntriesSpec(projects: seq<ProjectModel.Project>, i: int, j: int)
    requires 1 <= i < j < |projects| + 1
    ensures var r := ProjectEntries(projects);
            Store.OrderKey(r[i].project.order) <= Store.OrderKey(r[j].project.order)
    ensures multiset(Store.SortByOrder(projects, Store.ProjectOrder)) == multiset(projects)
  {
    Store.SortByOrderSpec(projects, Store.ProjectOrder);
  }
}
