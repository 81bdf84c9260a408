// src/views/project.js: the open tasks of one project, or of the inbox,
// in manual order; and how src/app.js picks the project from the route.
module ProjectView {
  import opened Wrappers
  import opened JsValues
  import Seqs
  import Store
  import ProjectModel
  import opened ViewHelpers

  const InboxId := "inbox"
  const EmptyMessage := "В этом проекте ещё нет задач."

  /**
   * The not-found page, or the listing with its title (`None` for the
   * inbox), its section and the scope that reordering passes on.
   */
  datatype Page = NotFound | Listing(title: Option<string>, section: Section, scope: Js)

  /**
   * `projectId ?? (project ? project.id : routeId === 'inbox' ? null : routeId)`,
   * with `undefined` for a missing route id.
   */
  function NormalizedProjectId(projectId: Js, project: Option<ProjectModel.Project>, routeId: Option<string>): (r: Js)
    ensures !Nullish(projectId) ==> r == projectId
    ensures Nullish(projectId) && project.Some? ==> r == Str(project.value.id)
    ensures Nullish(projectId) && project.None? && routeId == Some(InboxId) ==> r == Null
  {
    if !Nullish(projectId) then projectId
    else if project.Some? then Str(project.value.id)
    else match routeId
      case None => Undefined
      case Some(id) => if id == InboxId then Null else Str(id)
  }

  /** Open, and `normalizeProjectId(task.projectId) === scope`. */
  predicate InScope(scope: Js, t: Task)
  {
    !t.IsDone() && Store.ProjectIdJs(t.projectId) == scope
  }

  function Scoped(scope: Js): Task -> bool
  {
    t => InScope(scope, t)
  }

  /**
   * `renderProjectView(project, { projectId })`: with no project, a scope
   * that is neither the inbox (`null`) nor `undefined` is not found;
   * otherwise the open tasks of the scope in manual order.
   */
  function Render(project: Option<ProjectModel.Project>, projectId: Js, routeId: Option<string>, tasks: seq<Task>): (r: Page)
    ensures var scope := NormalizedProjectId(projectId, project, routeId);
            r.NotFound? <==> project.None? && !scope.Null? && !scope.Undefined?
    ensures r.Listing? ==> r.scope == NormalizedProjectId(projectId, project, routeId)
    ensures r.Listing? ==> r.section.tasks == SortByManualOrder(Seqs.Filter(tasks, Scoped(r.scope)))
    ensures r.Listing? ==> r.title == (if project.Some? then Some(project.value.name) else None)
  {
    var scope := NormalizedProjectId(projectId, project, routeId);
    if project.None? && !scope.Null? && !scope.Undefined? then NotFound
    else
      var listed := SortByManualOrder(Seqs.Filter(tasks, Scoped(scope)));
      Listing(if project.Some? then Some(project.value.name) else None, Section(None, listed, Some(EmptyMessage)), scope)
  }

  /**
   * The `project` case of `#getViewRenderer`: the route id, with `inbox`
   * read as `null`, and the project of that id when there is one.
   */
  function ForRoute(projects: seq<ProjectModel.Project>, routeId: Option<string>, tasks: seq<Task>): Page
  {
    var projectId := match routeId
      case None => Undefined
      case Some(id) => if id == InboxId then Null else Str(id);
    var project := if routeId.Some? && routeId.value != "" && routeId.value != InboxId
                   then Store.FindProject(projects, routeId.value) else None;
    Render(project, projectId, routeId, tasks)
  }

  /** The inbox route lists exactly the open tasks without a project. */
  lemma InboxRoute(projects: seq<ProjectModel.Project>, tasks: seq<Task>, t: Task)
    ensures var page := ForRoute(projects, Some(InboxId), tasks);
            page.Listing? && page.title.None? && page.scope == Null
            && (t in page.section.tasks <==> t in tasks && !t.IsDone() && t.projectId.None?)
  {
    var page := ForRoute(projects, Some(InboxId), tasks);
    Seqs.FilterMembership(tasks, Scoped(Null), t);
    assert t in page.section.tasks <==> t in multiset(page.section.tasks);
  }

  /**
   * A project route lists, under the project's name, exactly the open tasks
   * of that project; an id no project has gives the not-found page.
   */
  lemma ProjectRoute(projects: seq<ProjectModel.Project>, id: string, tasks: seq<Task>, t: Task)
    requires id != "" && id != InboxId
    ensures var page := ForRoute(projects, Some(id), tasks);
            && (Store.FindProject(projects, id).None? <==> page.NotFound?)
            && (page.Listing? ==>
                  page.title == Some(Store.FindProject(projects, id).value.name)
                  && (t in page.section.tasks <==> t in tasks && !t.IsDone() && t.projectId == Some(id)))
  {
    var page := ForRoute(projects, Some(id), tasks);
    var project := Store.FindProject(projects, id);
    if project.Some? {
      Seqs.FilterMembership(tasks, Scoped(Str(id)), t);
      assert t in page.section.tasks <==> t in multiset(page.section.tasks);
    }
  }
}
