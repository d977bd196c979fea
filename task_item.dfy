/** The task list entry: its status label and status cycle, the overdue
    test, and the edit form with its state cells (the fields, the selected
    tag ids and the new-tag name) and its three handlers. */
module TaskItemComponent {
  import opened Common
  import opened TaskActions
  import opened TagActions
  import opened Forms

  /** The label a status is shown with. */
  function StatusLabel(s: Status): string
  {
    match s
    case Todo => "To Do"
    case InProgress => "In Progress"
    case Done => "Done"
  }

  /** The status the checkbox button advances to. */
  function NextStatus(s: Status): Status
  {
    match s
    case Todo => InProgress
    case InProgress => Done
    case Done => Todo
  }

  /** The cycle visits every status: each click changes the status, and
      three clicks bring it back. */
  lemma StatusCycle(s: Status)
    ensures NextStatus(s) != s
    ensures NextStatus(NextStatus(s)) != s
    ensures NextStatus(NextStatus(NextStatus(s))) == s
    ensures {s, NextStatus(s), NextStatus(NextStatus(s))} == {Todo, InProgress, Done}
  {
  }

  /** A task is overdue when it has a due date, is not done, and the due
      date lies before `now`. */
  predicate IsOverdue(t: Task, now: int)
  {
    t.dueDate.Some? && t.status != Done && t.dueDate.value < now
  }

  /** A task without a due date, or a done one, is never overdue; an overdue
      task stays overdue as time passes until its status changes; marking
      it done through the status update clears the mark. */
  lemma OverdueRules(t: Task, now: int, later: int)
    ensures t.dueDate.None? || t.status == Done ==> !IsOverdue(t, now)
    ensures IsOverdue(t, now) && now <= later ==> IsOverdue(t, later)
    ensures t.dueDate.Some? && t.status != Done && now <= t.dueDate.value ==> !IsOverdue(t, now)
    ensures !IsOverdue(t.(status := Done, completedAt := StatusUpdateCompletedAt(Done, now)), later)
  {
  }

  /** The status button: the status-only update with the status after
      `shown`, the status of the task as the list rendered it (which need
      not be the stored one when the page is stale), so only that row's
      status and completion time change. */
  method AdvanceStatus(store: TaskStore, id: string, shown: Status, now: int) returns (outcome: Outcome)
    requires store.Valid()
    modifies store
    ensures store.Valid()
    ensures outcome == if id in old(store.tasks) then Pass else Fail(NotFound)
    ensures outcome.Pass? ==>
      (var next := NextStatus(shown);
       && store.tasks == old(store.tasks)[id := old(store.tasks)[id].(status := next,
                                                                     completedAt := StatusUpdateCompletedAt(next, now))]
       && CompletionConsistent(store.tasks[id]))
    ensures outcome.Fail? ==> store.tasks == old(store.tasks)
    ensures store.links == old(store.links)
  {
    outcome := store.UpdateTaskStatus(id, NextStatus(shown), now);
  }

  /** The edit form of one task: a state cell per field. */
  class TaskEditForm {
    var title: string
    var notes: string
    var status: Status
    var priority: Priority
    var dueDate: string
    var projectId: string
    var selectedTagIds: seq<string>
    var newTagName: string
    var error: Option<Error>

    /** The form starts from the task's own fields: missing notes and
        project as empty text, the due date as its ISO calendar date
        (`isoDate`), and the ids of its tags in link order. */
    constructor (task: Task, tagIds: seq<string>, isoDate: int -> string)
      ensures title == task.title
      ensures notes == (if task.notes.Some? then task.notes.value else "")
      ensures status == task.status && priority == task.priority
      ensures dueDate == (if task.dueDate.Some? then isoDate(task.dueDate.value) else "")
      ensures projectId == (if task.projectId.Some? then task.projectId.value else "")
      ensures selectedTagIds == tagIds
      ensures newTagName == "" && error == None
    {
      title := task.title;
      notes := if task.notes.Some? then task.notes.value else "";
      status := task.status;
      priority := task.priority;
      dueDate := if task.dueDate.Some? then isoDate(task.dueDate.value) else "";
      projectId := if task.projectId.Some? then task.projectId.value else "";
      selectedTagIds := tagIds;
      newTagName := "";
      error := None;
    }

    function Fields(): FormFields
      reads this
    {
      FormFields(title, notes, status, priority, dueDate, projectId, selectedTagIds)
    }

    /** A click on a tag: the selection is toggled. */
    method ToggleTag(id: string)
      modifies this`selectedTagIds
      ensures selectedTagIds == Toggle(old(selectedTagIds), id)
      ensures id in selectedTagIds <==> id !in old(selectedTagIds)
      ensures Distinct(old(selectedTagIds)) ==> Distinct(selectedTagIds)
    {
      ToggleFlips(selectedTagIds, id);
      selectedTagIds := Toggle(selectedTagIds, id);
    }

    /** `handleCreateTag`: an empty normalised name does nothing; a name the
        tag action rejects does nothing either (the error is only logged);
        otherwise the tag's id is appended to the selection, whether or not
        it is already selected, and the input is cleared. */
    method CreateTag(tags: TagStore, newId: string)
      requires tags.Valid() && newId !in tags.tags
      modifies this`selectedTagIds, this`newTagName, tags
      ensures tags.Valid()
      ensures var name := NormaliseTagName(old(newTagName));
        if name == "" || !ValidTagName(name) then
          tags.tags == old(tags.tags) && selectedTagIds == old(selectedTagIds) && newTagName == old(newTagName)
        else
          && |selectedTagIds| == |old(selectedTagIds)| + 1
          && selectedTagIds[..|old(selectedTagIds)|] == old(selectedTagIds)
          && (var id := selectedTagIds[|old(selectedTagIds)|];
              id in tags.tags && tags.tags[id] == name)
          && (name in old(tags.tags).Values ==> tags.tags == old(tags.tags))
          && (name !in old(tags.tags).Values ==> tags.tags == old(tags.tags)[newId := name])
          && newTagName == ""
    {
      var name := NormaliseTagName(newTagName);
      if name == "" {
        return;
      }
      var created := tags.CreateTag(name, newId);
      if created.Success? {
        selectedTagIds := selectedTagIds + [created.value.id];
        newTagName := "";
      }
    }

    /** `handleSubmit`: the fields go to the full update as form data; a
        rejected title or a missing task leaves the store alone and is
        shown as the form's error. */
    method Submit(store: TaskStore, id: string, now: int, dateOf: string -> int) returns (outcome: Outcome)
      requires store.Valid()
      modifies store, this`error
      ensures store.Valid()
      ensures !ValidTitle(title) ==> outcome == Fail(Invalid)
      ensures ValidTitle(title) && id !in old(store.tasks) ==> outcome == Fail(NotFound)
      ensures outcome.Fail? ==>
        store.tasks == old(store.tasks) && store.links == old(store.links) && error == Some(outcome.error)
      ensures ValidTitle(title) && id in old(store.tasks) ==>
        && outcome == Pass && error == None
        && store.tasks.Keys == old(store.tasks).Keys
        && (forall other :: other in store.tasks && other != id ==> store.tasks[other] == old(store.tasks)[other])
        && store.links == old(store.links)[id := selectedTagIds]
        && (var t := store.tasks[id];
            && t.completedAt == FullUpdateCompletedAt(status, Some(old(store.tasks)[id]), now)
            && t.title == title && t.status == status && t.priority == priority
            && t.notes == (if notes == "" then old(store.tasks)[id].notes else Some(notes))
            && t.projectId == NonEmpty(Some(projectId))
            && t.dueDate == (if dueDate == "" then None else Some(dateOf(dueDate))))
    {
      error := None;
      var fd := BuildFormData(Fields());
      EncodedFormParses(Fields());
      outcome := store.UpdateTask(id, fd, now, dateOf);
      if outcome.Fail? {
        error := Some(outcome.error);
      }
    }
  }
}
