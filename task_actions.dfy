/** The task server actions: the task schema and the defaults applied to a
    submitted form, the two rules for the completion time, and create,
    full update, status-only update and delete over a task table whose rows
    each carry the list of tag ids linked to them. */
module TaskActions {
  import opened Common
  import opened KeyValues

  /** The object assembled from the submitted form before it is parsed:
      empty notes become undefined, an empty status or priority falls back to
      TODO or MEDIUM, an empty due date or project becomes null. */
  datatype RawTask = RawTask(
    title: Option<string>,
    notes: Option<string>,
    status: string,
    priority: string,
    dueDate: Option<string>,
    projectId: Option<string>,
    tagIds: seq<string>)

  /** What the task schema lets through. */
  datatype TaskData = TaskData(
    title: string,
    notes: Option<string>,
    status: Status,
    priority: Priority,
    dueDate: Option<string>,
    projectId: Option<string>,
    tagIds: seq<string>)

  function RawFromForm(fd: seq<Entry>): RawTask
  {
    RawTask(
      Get(fd, "title"),
      NonEmpty(Get(fd, "notes")),
      OrElse(Get(fd, "status"), "TODO"),
      OrElse(Get(fd, "priority"), "MEDIUM"),
      NonEmpty(Get(fd, "dueDate")),
      NonEmpty(Get(fd, "projectId")),
      GetAll(fd, "tagIds"))
  }

  predicate ValidTitle(title: string)
  {
    1 <= |title| <= 200
  }

  /** The task schema: a title of 1 to 200 characters and enum values for
      status and priority; the other fields pass as they are. */
  function ParseTask(raw: RawTask): (r: Result<TaskData>)
    ensures r.Success? <==>
      raw.title.Some? && ValidTitle(raw.title.value)
      && ParseStatus(raw.status).Some? && ParsePriority(raw.priority).Some?
    ensures r.Failure? ==> r.error == Invalid
    ensures r.Success? ==>
      && r.value.title == raw.title.value
      && StatusName(r.value.status) == raw.status
      && PriorityName(r.value.priority) == raw.priority
      && r.value.notes == raw.notes && r.value.dueDate == raw.dueDate
      && r.value.projectId == raw.projectId && r.value.tagIds == raw.tagIds
  {
    match (raw.title, ParseStatus(raw.status), ParsePriority(raw.priority))
    case (Some(title), Some(status), Some(priority)) =>
      if ValidTitle(title) then
        Success(TaskData(title, raw.notes, status, priority, raw.dueDate, raw.projectId, raw.tagIds))
      else
        Failure(Invalid)
    case _ => Failure(Invalid)
  }

  function ParseTaskForm(fd: seq<Entry>): Result<TaskData>
  {
    ParseTask(RawFromForm(fd))
  }

  /** A form is accepted only with a title of 1 to 200 characters; a missing
      title is rejected. */
  lemma TitleRule(fd: seq<Entry>)
    ensures Get(fd, "title").None? ==> ParseTaskForm(fd).Failure?
    ensures Get(fd, "title").Some? && !ValidTitle(Get(fd, "title").value) ==> ParseTaskForm(fd).Failure?
    ensures ParseTaskForm(fd).Success? ==>
      Get(fd, "title") == Some(ParseTaskForm(fd).value.title) && ValidTitle(ParseTaskForm(fd).value.title)
  {
  }

  /** A missing or empty status is TODO and a missing or empty priority is
      MEDIUM; any other value that is not an enum value rejects the form. */
  lemma StatusAndPriorityDefaults(fd: seq<Entry>)
    ensures NonEmpty(Get(fd, "status")).None? && ParseTaskForm(fd).Success? ==> ParseTaskForm(fd).value.status == Todo
    ensures NonEmpty(Get(fd, "priority")).None? && ParseTaskForm(fd).Success? ==> ParseTaskForm(fd).value.priority == Medium
    ensures NonEmpty(Get(fd, "status")).Some? && ParseStatus(Get(fd, "status").value).None? ==> ParseTaskForm(fd).Failure?
    ensures NonEmpty(Get(fd, "priority")).Some? && ParsePriority(Get(fd, "priority").value).None? ==> ParseTaskForm(fd).Failure?
    ensures ParseTaskForm(fd).Success? && NonEmpty(Get(fd, "status")).Some? ==>
      Get(fd, "status") == Some(StatusName(ParseTaskForm(fd).value.status))
  {
  }

  /** `new Date(text)` for a due date the schema let through. */
  function DueDateOf(dueDate: Option<string>, dateOf: string -> int): Option<int>
  {
    match dueDate
    case Some(text) => Some(dateOf(text))
    case None => None
  }

  /** The row `createTask` writes: no completion time is written, whatever
      the status. */
  function NewTask(data: TaskData, dateOf: string -> int): Task
  {
    Task(data.title, data.notes, data.status, data.priority, DueDateOf(data.dueDate, dateOf), None, data.projectId)
  }

  /** The completion time written by the full update, from the row read
      before writing (None when no row was found). */
  function FullUpdateCompletedAt(status: Status, existing: Option<Task>, now: int): Option<int>
  {
    if status == Done then
      if existing.Some? && existing.value.status == Done then existing.value.completedAt else Some(now)
    else
      None
  }

  /** The completion time written by the status-only update. */
  function StatusUpdateCompletedAt(status: Status, now: int): (r: Option<int>)
    ensures r.Some? <==> status == Done
    ensures r.Some? ==> r.value == now
  {
    if status == Done then Some(now) else None
  }

  /** The row the full update writes over `prior`. Undefined notes leave
      the stored notes alone; an absent due date or project clears it. */
  function UpdatedTask(prior: Task, data: TaskData, completedAt: Option<int>, dateOf: string -> int): Task
  {
    Task(
      data.title,
      if data.notes.Some? then data.notes else prior.notes,
      data.status,
      data.priority,
      DueDateOf(data.dueDate, dateOf),
      completedAt,
      data.projectId)
  }

  /** A task is consistent when it has a completion time exactly when it is done. */
  predicate CompletionConsistent(t: Task)
  {
    t.status == Done <==> t.completedAt.Some?
  }

  /** Full update, DONE to DONE: the stored completion time is kept. */
  lemma FullUpdateKeepsCompletionTime(prior: Task, now: int)
    requires prior.status == Done
    ensures FullUpdateCompletedAt(Done, Some(prior), now) == prior.completedAt
  {
  }

  /** Full update: newly DONE stamps now, and any other status clears. */
  lemma FullUpdateStampsOrClears(status: Status, existing: Option<Task>, now: int)
    ensures status == Done && !(existing.Some? && existing.value.status == Done) ==>
      FullUpdateCompletedAt(status, existing, now) == Some(now)
    ensures status != Done ==> FullUpdateCompletedAt(status, existing, now) == None
  {
  }

  /** The two updates disagree on DONE to DONE: the status-only update
      stamps now, while the full update keeps the stored completion time,
      even when there is none (a row created DONE). */
  lemma UpdatesDisagreeOnDoneToDone(prior: Task, now: int)
    requires prior.status == Done && prior.completedAt != Some(now)
    ensures FullUpdateCompletedAt(Done, Some(prior), now) != StatusUpdateCompletedAt(Done, now)
  {
  }

  /** The status-only update makes any task consistent; the full update
      keeps a consistent task consistent; a task created DONE is not. */
  lemma CompletionConsistency(prior: Task, data: TaskData, status: Status, now: int, dateOf: string -> int)
    ensures CompletionConsistent(prior.(status := status, completedAt := StatusUpdateCompletedAt(status, now)))
    ensures CompletionConsistent(prior) ==>
      CompletionConsistent(UpdatedTask(prior, data, FullUpdateCompletedAt(data.status, Some(prior), now), dateOf))
    ensures CompletionConsistent(NewTask(data, dateOf)) <==> data.status != Done
  {
  }

  /** The task table: rows by id, and for each row the ids of the tags
      linked to it, in the order the links were created. */
  class TaskStore {
    var tasks: map<string, Task>
    var links: map<string, seq<string>>

    ghost predicate Valid()
      reads this
    {
      links.Keys == tasks.Keys
    }

    constructor ()
      ensures Valid() && tasks == map[] && links == map[]
    {
      tasks := map[];
      links := map[];
    }

    /** `createTask`: parse the form, then write the row and its tag links
        in one step. `id` is the fresh id the store assigns. */
    method CreateTask(fd: seq<Entry>, id: string, dateOf: string -> int) returns (outcome: Outcome)
      requires Valid() && id !in tasks
      modifies this
      ensures Valid()
      ensures outcome == if ParseTaskForm(fd).Success? then Pass else Fail(Invalid)
      ensures outcome.Pass? ==>
        && tasks == old(tasks)[id := NewTask(ParseTaskForm(fd).value, dateOf)]
        && links == old(links)[id := ParseTaskForm(fd).value.tagIds]
      ensures outcome.Fail? ==> tasks == old(tasks) && links == old(links)
    {
      var parsed := ParseTask(RawFromForm(fd));
      if parsed.Failure? {
        return Fail(Invalid);
      }
      var data := parsed.value;
      tasks := tasks[id := NewTask(data, dateOf)];
      links := links[id := data.tagIds];
      outcome := Pass;
    }

    /** `updateTask`: parse the form, read the stored status and completion
        time, then overwrite the row and replace its tag links: every old
        link is deleted, then one is created per submitted tag id. */
    method UpdateTask(id: string, fd: seq<Entry>, now: int, dateOf: string -> int) returns (outcome: Outcome)
      requires Valid()
      modifies this
      ensures Valid()
      ensures ParseTaskForm(fd).Failure? ==> outcome == Fail(Invalid)
      ensures ParseTaskForm(fd).Success? && id !in old(tasks) ==> outcome == Fail(NotFound)
      ensures outcome.Fail? ==> tasks == old(tasks) && links == old(links)
      ensures ParseTaskForm(fd).Success? && id in old(tasks) ==>
        var data := ParseTaskForm(fd).value;
        && outcome == Pass
        && tasks == old(tasks)[id := UpdatedTask(old(tasks)[id], data,
                                     FullUpdateCompletedAt(data.status, Some(old(tasks)[id]), now), dateOf)]
        && links == old(links)[id := data.tagIds]
    {
      var parsed := ParseTask(RawFromForm(fd));
      if parsed.Failure? {
        return Fail(Invalid);
      }
      var data := parsed.value;
      var existing := if id in tasks then Some(tasks[id]) else None;
      var completedAt := FullUpdateCompletedAt(data.status, existing, now);
      if id !in tasks {
        return Fail(NotFound);
      }
      tasks := tasks[id := UpdatedTask(tasks[id], data, completedAt, dateOf)];
      links := links[id := []];
      links := links[id := links[id] + data.tagIds];
      assert links[id] == [] + data.tagIds == data.tagIds;
      outcome := Pass;
    }

    /** `updateTaskStatus`: only the status and the completion time change. */
    method UpdateTaskStatus(id: string, status: Status, now: int) returns (outcome: Outcome)
      requires Valid()
      modifies this
      ensures Valid()
      ensures outcome == if id in old(tasks) then Pass else Fail(NotFound)
      ensures outcome.Pass? ==>
        tasks == old(tasks)[id := old(tasks)[id].(status := status, completedAt := StatusUpdateCompletedAt(status, now))]
      ensures outcome.Fail? ==> tasks == old(tasks)
      ensures links == old(links)
    {
      if id !in tasks {
        return Fail(NotFound);
      }
      tasks := tasks[id := tasks[id].(status := status, completedAt := StatusUpdateCompletedAt(status, now))];
      outcome := Pass;
    }

    /** `deleteTask`: the row and its tag links go; every other row stays. */
    method DeleteTask(id: string) returns (outcome: Outcome)
      requires Valid()
      modifies this
      ensures Valid()
      ensures outcome == if id in old(tasks) then Pass else Fail(NotFound)
      ensures outcome.Pass? ==> tasks == old(tasks) - {id} && links == old(links) - {id}
      ensures outcome.Fail? ==> tasks == old(tasks) && links == old(links)
    {
      if id !in tasks {
        return Fail(NotFound);
      }
      tasks := tasks - {id};
      links := links - {id};
      outcome := Pass;
    }
  }
}
