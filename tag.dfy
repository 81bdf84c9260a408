// src/views/tag.js: the open tasks carrying one tag.
module TagView {
  import opened Wrappers
  import Dates
  import Seqs
  import opened ViewHelpers

  const NoTagMessage := "Выберите тег в сайдбаре."
  const EmptyMessage := "Нет задач с этим тегом."

  datatype Page = PickTag | Listing(sections: seq<Section>)

  /** Open and tagged with exactly `tag` (case-sensitive `includes`). */
  predicate HasTag(tag: string, t: Task)
  {
    !t.IsDone() && tag in t.tags
  }

  function Tagged(tag: string): Task -> bool
  {
    t => HasTag(tag, t)
  }

  /**
   * `renderTagView(tag)`: a missing or empty tag asks for one and lists
   * nothing; otherwise one section of the open tasks with that exact tag,
   * sorted by priority and time.
   */
  function Render(c: Dates.Clock, tag: Option<string>, tasks: seq<Task>): (r: Page)
    ensures r.PickTag? <==> tag.None? || tag.value == ""
    ensures r.Listing? ==> |r.sections| == 1 && r.sections[0].emptyMessage == Some(EmptyMessage)
    ensures r.Listing? ==> r.sections[0].tasks == SortByPriorityAndTime(c, Seqs.Filter(tasks, Tagged(tag.value)))
  {
    if tag.None? || tag.value == "" then PickTag
    else Listing([Section(None, SortByPriorityAndTime(c, Seqs.Filter(tasks, Tagged(tag.value))), Some(EmptyMessage))])
  }

  /** The listing holds exactly the open tasks whose tags contain the tag, ordered by priority and time. */
  lemma RenderLists(c: Dates.Clock, tag: string, tasks: seq<Task>, t: Task)
    requires tag != ""
    ensures var page := Render(c, Some(tag), tasks);
            page.Listing? && (t in page.sections[0].tasks <==> t in tasks && !t.IsDone() && tag in t.tags)
  {
    var listed := Seqs.Filter(tasks, Tagged(tag));
    Seqs.FilterMembership(tasks, Tagged(tag), t);
    assert t in SortByPriorityAndTime(c, listed) <==> t in multiset(SortByPriorityAndTime(c, listed));
  }
}
