// src/models/project.js: the project record and its sanitisers.
// `sanitizeOrder` (src/models/project.js:19-21) is the same rule as the
// task one and is shared as `TaskModel.SanitizeOrder`.
module ProjectModel {
  import opened Wrappers
  import opened JsValues
  import Text
  import TaskModel

  const MaxName := 120

  datatype Project = Project(
    id: string,
    name: string,
    color: Option<string>,
    order: Num,
    createdAt: string,
    updatedAt: string)

  /** `sanitizeName(name)`: trimmed and cut to 120, or an error when nothing is left. */
  function SanitizeName(name: Js): (r: Result<string, string>)
    ensures r.Ok? <==> name.Str? && Text.Trim(name.s) != ""
    ensures r.Ok? ==> 0 < |r.value| <= MaxName && |r.value| <= |Text.Trim(name.s)|
                      && r.value == Text.Trim(name.s)[..|r.value|]
  {
    var value := if name.Str? then Text.Take(Text.Trim(name.s), MaxName) else "";
    if value == "" then Err("project name required") else Ok(value)
  }

  predicate IsHexDigit(ch: char)
  {
    ('0' <= ch <= '9') || ('a' <= ch <= 'f') || ('A' <= ch <= 'F')
  }

  /** `/^#([0-9a-f]{6})$/i.test(s)`. */
  predicate IsHexColor(s: string)
  {
    |s| == 7 && s[0] == '#' && forall i :: 1 <= i < 7 ==> IsHexDigit(s[i])
  }

  /**
   * `sanitizeColor(color)`: `#` and six hex digits after trimming, in any
   * case, comes back upper-cased; anything else is null.
   */
  function SanitizeColor(color: Js): (r: Option<string>)
    ensures r.Some? <==> color.Str? && IsHexColor(Text.Trim(color.s))
    ensures r.Some? ==> IsHexColor(r.value) && r.value == Text.Upper(r.value)
    ensures r.Some? ==> Text.Lower(r.value) == Text.Lower(Text.Trim(color.s))
  {
    if !color.Str? then None
    else
      var value := Text.Trim(color.s);
      if IsHexColor(value) then Some(Text.Upper(value)) else None
  }

  /** A colour that survived sanitising sanitises to itself. */
  lemma SanitizeColorIdempotent(color: Js)
    requires SanitizeColor(color).Some?
    ensures SanitizeColor(Str(SanitizeColor(color).value)) == SanitizeColor(color)
  {
    var v := SanitizeColor(color).value;
    assert Text.Trim(v) == v by {
      assert Text.LeadingSpaces(v) == 0;
      assert Text.TrailingSpaces(v) == 0;
    }
  }

  /** `createProject(input)`: fails exactly on an empty name; both stamps are `now`. */
  function CreateProject(input: Js, now: string, nowMs: int, freshId: string): (r: Result<Project, string>)
    ensures r.Ok? <==> SanitizeName(Get(input, "name")).Ok?
    ensures r.Ok? ==> r.value.createdAt == r.value.updatedAt == now
    ensures r.Ok? ==> 0 < |r.value.name| <= MaxName && r.value.order.Finite?
    ensures r.Ok? && !Truthy(Get(input, "id")) ==> r.value.id == freshId
    ensures r.Ok? && !Get(input, "color").Str? ==> r.value.color == None
  {
    var id := Get(input, "id");
    match SanitizeName(Get(input, "name"))
    case Err(e) => Err(e)
    case Ok(name) =>
      Ok(Project(
        id := if id.Str? && id.s != "" then id.s else freshId,
        name := name,
        color := SanitizeColor(Get(input, "color")),
        order := TaskModel.SanitizeOrder(Get(input, "order"), nowMs),
        createdAt := now,
        updatedAt := now))
  }

  /**
   * `updateProject(project, updates)`: a missing project or a truthy name
   * that sanitises to nothing is an error; the name changes only when its
   * update is truthy, colour and order whenever their update is defined
   * (a bad colour clears it), and `updatedAt` is always re-stamped.
   */
  function UpdateProject(project: Option<Project>, updates: Js, now: string, nowMs: int): (r: Result<Project, string>)
    ensures project.None? ==> r.Err?
    ensures project.Some? ==> (r.Err? <==> Truthy(Get(updates, "name")) && SanitizeName(Get(updates, "name")).Err?)
    ensures r.Ok? ==> r.value.id == project.value.id && r.value.createdAt == project.value.createdAt
    ensures r.Ok? ==> r.value.updatedAt == now
    ensures r.Ok? && !Truthy(Get(updates, "name")) ==> r.value.name == project.value.name
    ensures r.Ok? && Get(updates, "color").Undefined? ==> r.value.color == project.value.color
    ensures r.Ok? && !Get(updates, "color").Undefined? ==> r.value.color == SanitizeColor(Get(updates, "color"))
    ensures r.Ok? && Get(updates, "order").Undefined? ==> r.value.order == project.value.order
    ensures r.Ok? && Truthy(Get(updates, "name")) ==> r.value.name == SanitizeName(Get(updates, "name")).value
    ensures r.Ok? && !Get(updates, "order").Undefined? ==> r.value.order == TaskModel.SanitizeOrder(Get(updates, "order"), nowMs)
  {
    match project
    case None => Err("project not found")
    case Some(p) =>
      var name := Get(updates, "name");
      if Truthy(name) && SanitizeName(name).Err? then Err(SanitizeName(name).error)
      else
        var color := Get(updates, "color");
        var order := Get(updates, "order");
        Ok(p.(
          name := if Truthy(name) then SanitizeName(name).value else p.name,
          color := if !color.Undefined? then SanitizeColor(color) else p.color,
          order := if !order.Undefined? then TaskModel.SanitizeOrder(order, nowMs) else p.order,
          updatedAt := now))
  }
}
