// src/views/search.js: the case-insensitive title and description search.
//
// `toLowerCase` is modelled as `Text.Lower`, which folds ASCII letters only.
module SearchView {
  import opened Wrappers
  import Text
  import Seqs
  import opened ViewHelpers

  const PromptMessage := "Введите запрос вверху, чтобы найти задачи."
  const EmptyMessage := "Ничего не найдено."

  /** `(query || '').trim().toLowerCase()`. */
  function NormalizeQuery(query: Option<string>): (r: string)
    ensures query.None? ==> r == ""
    ensures query.Some? ==> |r| == |Text.Trim(query.value)|
    ensures query.Some? ==> forall i :: 0 <= i < |r| ==> r[i] == Text.LowerChar(Text.Trim(query.value)[i])
  {
    match query
    case None => ""
    case Some(q) => Text.Lower(Text.Trim(q))
  }

  /**
   * `matchTask(task, query)`: the query occurs in the lower-cased title or
   * the lower-cased description. The `filter(Boolean)` that drops empty
   * texts changes nothing for a non-empty query.
   */
  predicate MatchTask(t: Task, query: string)
  {
    Text.Contains(Text.Lower(t.title), query) || Text.Contains(Text.Lower(t.description), query)
  }

  function Matching(query: string): Task -> bool
  {
    t => MatchTask(t, query)
  }

  /** A search page: the prompt when the query is blank, otherwise one result section. */
  datatype Page = Prompt | Results(count: nat, section: Section)

  /**
   * `renderSearchView(query)`: a blank query lists nothing; otherwise the
   * matching tasks, done ones included, in state order, under a title that
   * counts them.
   */
  function Render(query: Option<string>, tasks: seq<Task>): (r: Page)
    ensures r.Prompt? <==> NormalizeQuery(query) == ""
    ensures r.Results? ==> r.section.tasks == Seqs.Filter(tasks, Matching(NormalizeQuery(query)))
    ensures r.Results? ==> r.count == |r.section.tasks| && r.section.emptyMessage == Some(EmptyMessage)
  {
    var q := NormalizeQuery(query);
    if q == "" then Prompt
    else
      var results := Seqs.Filter(tasks, Matching(q));
      Results(|results|, Section(None, results, Some(EmptyMessage)))
  }

  /** A task is a result exactly when it matches; results keep state order. */
  lemma RenderFinds(query: Option<string>, tasks: seq<Task>, t: Task)
    requires NormalizeQuery(query) != ""
    ensures var page := Render(query, tasks);
            page.Results? && (t in page.section.tasks <==> t in tasks && MatchTask(t, NormalizeQuery(query)))
  {
    Seqs.FilterMembership(tasks, Matching(NormalizeQuery(query)), t);
  }
}
