/** The project server actions: the project-name schema, and create, update
    and delete over the project table. */
module ProjectActions {
  import opened Common
  import opened KeyValues

  /** The project schema: a name of 1 to 100 characters. */
  predicate ValidProjectName(name: string)
  {
    1 <= |name| <= 100
  }

  /** The name field of a submitted form, if the schema accepts it; a form
      without a name is rejected like an invalid one. */
  function ParseProjectForm(fd: seq<Entry>): (r: Result<string>)
    ensures r.Success? <==> Get(fd, "name").Some? && ValidProjectName(Get(fd, "name").value)
    ensures r.Success? ==> r.value == Get(fd, "name").value
    ensures r.Failure? ==> r.error == Invalid
  {
    match Get(fd, "name")
    case Some(name) => if ValidProjectName(name) then Success(name) else Failure(Invalid)
    case None => Failure(Invalid)
  }

  /** The project table, by id, to the project's name. */
  class ProjectStore {
    var projects: map<string, string>

    constructor ()
      ensures projects == map[]
    {
      projects := map[];
    }

    /** `createProject`: `id` is the fresh id the store assigns. */
    method CreateProject(fd: seq<Entry>, id: string) returns (outcome: Outcome)
      requires id !in projects
      modifies this
      ensures outcome == if ParseProjectForm(fd).Success? then Pass else Fail(Invalid)
      ensures outcome.Pass? ==> projects == old(projects)[id := Get(fd, "name").value]
      ensures outcome.Fail? ==> projects == old(projects)
    {
      var parsed := ParseProjectForm(fd);
      if parsed.Failure? {
        return Fail(Invalid);
      }
      projects := projects[id := parsed.value];
      outcome := Pass;
    }

    /** `updateProject`: validation comes first; then only the name of the
        project with that id changes. */
    method UpdateProject(id: string, fd: seq<Entry>) returns (outcome: Outcome)
      modifies this
      ensures ParseProjectForm(fd).Failure? ==> outcome == Fail(Invalid)
      ensures ParseProjectForm(fd).Success? ==>
        outcome == if id in old(projects) then Pass else Fail(NotFound)
      ensures outcome.Pass? ==> projects == old(projects)[id := Get(fd, "name").value]
      ensures outcome.Fail? ==> projects == old(projects)
    {
      var parsed := ParseProjectForm(fd);
      if parsed.Failure? {
        return Fail(Invalid);
      }
      if id !in projects {
        return Fail(NotFound);
      }
      projects := projects[id := parsed.value];
      outcome := Pass;
    }

    /** `deleteProject`: only the project with that id goes. */
    method DeleteProject(id: string) returns (outcome: Outcome)
      modifies this
      ensures outcome == if id in old(projects) then Pass else Fail(NotFound)
      ensures projects == old(projects) - {id}
    {
      if id !in projects {
        return Fail(NotFound);
      }
      projects := projects - {id};
      outcome := Pass;
    }
  }
}
