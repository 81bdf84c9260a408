// src/views/done.js: completed tasks, a project filter, and the clear action.
module DoneView {
  import opened Wrappers
  import Dates
  import Seqs
  import Store
  import Storage
  import opened ViewHelpers

  const InboxFilter := "inbox"
  const EmptyMessage := "Завершённых задач пока нет."

  /**
   * `matchesFilter(task, filterValue)`: an empty filter matches everything,
   * `inbox` a task with no (or an empty) project, anything else that project.
   */
  predicate MatchesFilter(t: Task, filter: string)
  {
    if filter == "" then true
    else if filter == InboxFilter then t.projectId.None? || t.projectId == Some("")
    else t.projectId == Some(filter)
  }

  predicate Listed(filter: string, t: Task)
  {
    t.IsDone() && MatchesFilter(t, filter)
  }

  function ListedUnder(filter: string): Task -> bool
  {
    t => Listed(filter, t)
  }

  /**
   * `a.doneAt ? new Date(a.doneAt).getTime() : 0`. A stamp that does not
   * parse gives NaN in the source, so `bDone - aDone` is NaN, which the
   * sort reads as "equal" to every task, and that is no consistent order;
   * the model maps NaN to 0 so that the comparator is a total preorder. Normalised tasks only ever carry a
   * parsable `doneAt`, and there the two agree.
   */
  function DoneKey(c: Dates.Clock, t: Task): int
  {
    if t.IsDone() then
      match c.parse(t.doneAt.value)
      case None => 0
      case Some(ms) => ms
    else 0
  }

  /** `cmp(a, b) <= 0` for `bDone - aDone`: later completion first. */
  function CompletedLe(c: Dates.Clock): (Task, Task) -> bool
  {
    (a: Task, b: Task) => DoneKey(c, b) <= DoneKey(c, a)
  }

  /** `sortCompleted(tasks)`: a sorted copy. */
  function SortCompleted(c: Dates.Clock, tasks: seq<Task>): (r: seq<Task>)
    ensures multiset(r) == multiset(tasks)
  {
    Seqs.Sort(tasks, CompletedLe(c))
  }

  /** The most recently completed task comes first; nothing is lost or added. */
  lemma SortCompletedSpec(c: Dates.Clock, tasks: seq<Task>, i: int, j: int)
    requires 0 <= i < j < |tasks|
    ensures multiset(SortCompleted(c, tasks)) == multiset(tasks)
    ensures DoneKey(c, SortCompleted(c, tasks)[i]) >= DoneKey(c, SortCompleted(c, tasks)[j])
  {
    Seqs.ByKeyPreorder((t: Task) => -DoneKey(c, t));
    assert forall a, b :: CompletedLe(c)(a, b) == Seqs.ByKey((t: Task) => -DoneKey(c, t))(a, b);
    assert Seqs.TotalPreorder(CompletedLe(c));
    Seqs.SortSorted(tasks, CompletedLe(c));
    assert CompletedLe(c)(SortCompleted(c, tasks)[i], SortCompleted(c, tasks)[j]);
  }

  /** The rendered list and the state of the clear button. */
  datatype Page = Page(section: Section, clearDisabled: bool)

  /**
   * `renderDoneView`, with `filter` the route's `project` parameter or `''`:
   * the completed tasks the filter matches, latest first; the clear button
   * is disabled exactly when that list is empty.
   */
  function Render(c: Dates.Clock, filter: string, tasks: seq<Task>): (r: Page)
    ensures multiset(r.section.tasks) == multiset(Seqs.Filter(tasks, ListedUnder(filter)))
    ensures r.section.tasks == SortCompleted(c, Seqs.Filter(tasks, ListedUnder(filter)))
    ensures r.clearDisabled <==> r.section.tasks == []
    ensures r.section.emptyMessage == Some(EmptyMessage)
  {
    var listed := Seqs.Filter(tasks, ListedUnder(filter));
    Page(Section(None, SortCompleted(c, listed), Some(EmptyMessage)), |listed| == 0)
  }

  /**
   * The clear button's target: `''` clears every project, `inbox` the tasks
   * without a project, anything else that project.
   */
  function ClearTarget(filter: string): (r: Store.ClearScope)
    ensures filter == "" <==> r.AllProjects?
    ensures filter == InboxFilter ==> r == Store.OnlyScope(None)
    ensures filter != "" && filter != InboxFilter ==> r == Store.OnlyScope(Some(filter))
  {
    if filter == "" then Store.AllProjects
    else if filter == InboxFilter then Store.OnlyScope(None)
    else Store.OnlyScope(Some(filter))
  }

  /**
   * Clearing removes exactly what the view lists: a task of the state is on
   * the list iff the clear action drops it (for tasks whose project id is
   * not the empty string, which the inbox filter lists but the store keeps).
   */
  lemma ClearRemovesListed(c: Dates.Clock, s: Storage.AppState, filter: string, t: Task)
    requires t in s.tasks && t.projectId != Some("")
    ensures t in Render(c, filter, s.tasks).section.tasks
            <==> t !in Store.ClearCompletedIn(s, ClearTarget(filter)).tasks
  {
    var listed := Seqs.Filter(s.tasks, ListedUnder(filter));
    Seqs.FilterMembership(s.tasks, ListedUnder(filter), t);
    assert t in SortCompleted(c, listed) <==> t in multiset(SortCompleted(c, listed));
    Store.ClearCompletedSpec(s, ClearTarget(filter), t);
  }
}
