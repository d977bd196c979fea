/** The home page's query construction: the optional search parameters
    become a filter (an AND of clauses) and a two-key ordering, and the page
    title is chosen from the current project, tag and status. */
module HomePage {
  import opened Common
  import TaskItemComponent

  /** The page's search parameters; each may be missing. */
  datatype SearchParams = SearchParams(
    project: Option<string>,
    status: Option<string>,
    tag: Option<string>,
    search: Option<string>,
    sortBy: Option<string>,
    sortDir: Option<string>)

  /** The filter handed to the store. Each field is one clause and is absent
      when that clause is not applied: the task's project, its status, "some
      tag link has this tag id", and "the title or the notes contain this". */
  datatype Where = Where(
    projectId: Option<string>,
    status: Option<Status>,
    tagId: Option<string>,
    search: Option<string>)

  const ValidStatusNames: seq<string> := ["TODO", "IN_PROGRESS", "DONE"]

  function BuildWhere(p: SearchParams): (w: Where)
    ensures w.projectId.Some? <==> p.project.Some? && p.project.value != ""
    ensures w.projectId.Some? ==> w.projectId == p.project
    ensures w.status.Some? <==> p.status.Some? && p.status.value in ValidStatusNames
    ensures w.status.Some? ==> StatusName(w.status.value) == p.status.value
    ensures w.tagId.Some? <==> p.tag.Some? && p.tag.value != ""
    ensures w.tagId.Some? ==> w.tagId == p.tag
    ensures w.search.Some? <==> p.search.Some? && p.search.value != ""
    ensures w.search.Some? ==> w.search == p.search
  {
    var projectId := NonEmpty(p.project);
    var status :=
      if NonEmpty(p.status).Some? && p.status.value in ValidStatusNames then ParseStatus(p.status.value) else None;
    var tagId := NonEmpty(p.tag);
    var search := NonEmpty(p.search);
    Where(projectId, status, tagId, search)
  }

  /** `part` occurs somewhere in `text` (a `contains` filter). */
  predicate Contains(text: string, part: string)
  {
    part <= text || (text != [] && Contains(text[1..], part))
  }

  predicate OccursAt(text: string, part: string, i: int)
  {
    0 <= i && i + |part| <= |text| && text[i..i + |part|] == part
  }

  /** `Contains` is the substring relation. */
  lemma {:induction false} ContainsIsSubstring(text: string, part: string)
    ensures Contains(text, part) <==> exists i :: OccursAt(text, part, i)
  {
    if part <= text {
      assert OccursAt(text, part, 0);
    } else if text == [] {
    } else {
      ContainsIsSubstring(text[1..], part);
      if exists i :: OccursAt(text[1..], part, i) {
        var i :| OccursAt(text[1..], part, i);
        assert text[i + 1..i + 1 + |part|] == text[1..][i..i + |part|];
        assert OccursAt(text, part, i + 1);
      }
      if exists i :: OccursAt(text, part, i) {
        var i :| OccursAt(text, part, i);
        if i > 0 {
          assert text[1..][i - 1..i - 1 + |part|] == text[i..i + |part|];
          assert OccursAt(text[1..], part, i - 1);
        }
      }
    }
  }

  /** A task, with the ids of its tag links, satisfies every clause present. */
  predicate Matches(w: Where, t: Task, tagIds: seq<string>)
  {
    && (w.projectId.Some? ==> t.projectId == w.projectId)
    && (w.status.Some? ==> t.status == w.status.value)
    && (w.tagId.Some? ==> w.tagId.value in tagIds)
    && (w.search.Some? ==>
          Contains(t.title, w.search.value) || (t.notes.Some? && Contains(t.notes.value, w.search.value)))
  }

  /** A status that is not an enum value is ignored, not an error: the
      filter is the one built without a status. */
  lemma BogusStatusIgnored(p: SearchParams)
    requires p.status.Some? && ParseStatus(p.status.value).None?
    ensures BuildWhere(p) == BuildWhere(p.(status := None))
  {
  }

  /** An empty search adds no clause; a non-empty one keeps exactly the tasks
      the other clauses keep whose title or notes contain it. */
  lemma SearchClause(p: SearchParams, t: Task, tagIds: seq<string>)
    ensures p.search == Some("") ==> BuildWhere(p) == BuildWhere(p.(search := None))
    ensures p.search.Some? && p.search.value != "" ==>
      (Matches(BuildWhere(p), t, tagIds) <==>
        Matches(BuildWhere(p.(search := None)), t, tagIds)
        && (Contains(t.title, p.search.value) || (t.notes.Some? && Contains(t.notes.value, p.search.value))))
  {
  }

  /** `q` leaves out some of the parameters of `p` and keeps the others. */
  predicate FewerFilters(q: SearchParams, p: SearchParams)
  {
    && (q.project == p.project || q.project.None?)
    && (q.status == p.status || q.status.None?)
    && (q.tag == p.tag || q.tag.None?)
    && (q.search == p.search || q.search.None?)
  }

  /** The clauses are combined with AND: dropping parameters never loses a
      matching task, and with no filter parameters every task matches. */
  lemma FiltersOnlyNarrow(p: SearchParams, q: SearchParams, t: Task, tagIds: seq<string>)
    requires FewerFilters(q, p)
    ensures Matches(BuildWhere(p), t, tagIds) ==> Matches(BuildWhere(q), t, tagIds)
    ensures q.project.None? && q.status.None? && q.tag.None? && q.search.None? ==>
      Matches(BuildWhere(q), t, tagIds)
  {
  }

  /** One entry of the ordering: a field name and a direction. */
  datatype Direction = Asc | Desc
  datatype OrderItem = OrderItem(field: string, direction: Direction)

  const ValidSortFields: seq<string> := ["createdAt", "dueDate", "priority", "title", "updatedAt"]

  /** The ordering: the requested field if it is on the allow-list, else
      createdAt; ascending only for "asc"; then always createdAt descending.
      The page's separate branch for priority builds the same two entries. */
  function BuildOrderBy(sortByParam: Option<string>, sortDirParam: Option<string>): (orderBy: seq<OrderItem>)
    ensures |orderBy| == 2 && orderBy[1] == OrderItem("createdAt", Desc)
    ensures orderBy[0].direction == Asc <==> sortDirParam == Some("asc")
    ensures sortByParam.Some? && sortByParam.value in ValidSortFields ==> orderBy[0].field == sortByParam.value
    ensures !(sortByParam.Some? && sortByParam.value in ValidSortFields) ==> orderBy[0].field == "createdAt"
  {
    var field := if sortByParam.Some? && sortByParam.value in ValidSortFields then sortByParam.value else "createdAt";
    var direction := if sortDirParam == Some("asc") then Asc else Desc;
    [OrderItem(field, direction), OrderItem("createdAt", Desc)]
  }

  /** The query as the page builds it: the filter record gains one clause
      per applied parameter, then the ordering is chosen in two branches. */
  method BuildQuery(p: SearchParams) returns (where: Where, orderBy: seq<OrderItem>)
    ensures where == BuildWhere(p)
    ensures orderBy == BuildOrderBy(p.sortBy, p.sortDir)
  {
    var sortBy := if p.sortBy.Some? then p.sortBy.value else "createdAt";
    var sortDir := if p.sortDir.Some? then p.sortDir.value else "desc";
    where := Where(None, None, None, None);
    if NonEmpty(p.project).Some? {
      where := where.(projectId := p.project);
    }
    if NonEmpty(p.status).Some? && p.status.value in ValidStatusNames {
      where := where.(status := ParseStatus(p.status.value));
    }
    if NonEmpty(p.tag).Some? {
      where := where.(tagId := p.tag);
    }
    if NonEmpty(p.search).Some? {
      where := where.(search := p.search);
    }
    var sortField := if sortBy in ValidSortFields then sortBy else "createdAt";
    var sortDirection := if sortDir == "asc" then Asc else Desc;
    if sortField == "priority" {
      orderBy := [OrderItem("priority", if sortDirection == Asc then Asc else Desc), OrderItem("createdAt", Desc)];
    } else {
      orderBy := [OrderItem(sortField, sortDirection), OrderItem("createdAt", Desc)];
    }
  }

  /** An unknown sort field orders like createdAt, and so does a missing one. */
  lemma UnknownSortFieldIsCreatedAt(sortBy: string, sortDir: Option<string>)
    requires sortBy !in ValidSortFields
    ensures BuildOrderBy(Some(sortBy), sortDir) == BuildOrderBy(Some("createdAt"), sortDir)
    ensures BuildOrderBy(None, sortDir) == BuildOrderBy(Some("createdAt"), sortDir)
  {
  }

  function CurrentProject(p: SearchParams, projects: seq<Project>): Option<Project>
  {
    if NonEmpty(p.project).Some? then FindById(projects, p.project.value) else None
  }

  function CurrentTag(p: SearchParams, tags: seq<Tag>): Option<Tag>
  {
    if NonEmpty(p.tag).Some? then FindById(tags, p.tag.value) else None
  }

  function PageTitle(p: SearchParams, projects: seq<Project>, tags: seq<Tag>): string
  {
    var currentProject := CurrentProject(p, projects);
    var currentTag := CurrentTag(p, tags);
    if currentProject.Some? then currentProject.value.name
    else if currentTag.Some? then "#" + currentTag.value.name
    else if p.status == Some("TODO") then "To Do"
    else if p.status == Some("IN_PROGRESS") then "In Progress"
    else if p.status == Some("DONE") then "Done"
    else "All Tasks"
  }

  /** The title is the current project's name, else `#` and the current
      tag's name, else the label the task list shows for the status the
      filter applies, else "All Tasks". */
  lemma PageTitlePrecedence(p: SearchParams, projects: seq<Project>, tags: seq<Tag>)
    ensures CurrentProject(p, projects).Some? ==>
      PageTitle(p, projects, tags) == CurrentProject(p, projects).value.name
    ensures CurrentProject(p, projects).None? && CurrentTag(p, tags).Some? ==>
      PageTitle(p, projects, tags) == "#" + CurrentTag(p, tags).value.name
    ensures CurrentProject(p, projects).None? && CurrentTag(p, tags).None? ==>
      PageTitle(p, projects, tags) ==
        match BuildWhere(p).status
        case Some(s) => TaskItemComponent.StatusLabel(s)
        case None => "All Tasks"
  {
  }
}
