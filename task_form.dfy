/** The new-task form: its starting state, the list of tags it offers
    (grown by the tags it creates), its selection, and its submission. */
module TaskFormComponent {
  import opened Common
  import opened TaskActions
  import opened TagActions
  import opened Forms

  /** No two offered tags share an id. */
  predicate IdsDistinct(tags: seq<Tag>)
  {
    forall i, j :: 0 <= i < j < |tags| ==> tags[i].id != tags[j].id
  }

  /** The offered tags after `tag` was created: unchanged when a tag with
      its id is already offered, otherwise `tag` appended. */
  function AddLocalTag(prev: seq<Tag>, tag: Tag): seq<Tag>
  {
    if FindById(prev, tag.id).Some? then prev else prev + [tag]
  }

  /** Looking up the created tag's id afterwards finds the tag already
      offered under that id, or else the created tag itself; the earlier
      tags keep their places, at most one entry is added, and ids stay
      distinct. */
  lemma AddLocalTagProperties(prev: seq<Tag>, tag: Tag)
    ensures var r := AddLocalTag(prev, tag);
      && FindById(r, tag.id) == (if FindById(prev, tag.id).Some? then FindById(prev, tag.id) else Some(tag))
      && prev <= r && |r| <= |prev| + 1
      && (|r| == |prev| + 1 <==> forall i :: 0 <= i < |prev| ==> prev[i].id != tag.id)
      && (IdsDistinct(prev) ==> IdsDistinct(r))
  {
    var r := AddLocalTag(prev, tag);
    if FindById(prev, tag.id).None? {
      assert r[|prev|] == tag;
      assert FirstWithId(r, tag.id, |prev|);
      FindByIdAtFirst(r, tag.id, |prev|);
    }
  }

  /** The new-task form: a state cell per field, the offered tags and the
      last error. */
  class TaskForm {
    var title: string
    var notes: string
    var status: Status
    var priority: Priority
    var dueDate: string
    var projectId: string
    var selectedTagIds: seq<string>
    var newTagName: string
    var localTags: seq<Tag>
    var error: Option<Error>

    /** The form starts empty with status TODO and priority MEDIUM, in the
        given project if there is one, offering every tag, none selected. */
    constructor (allTags: seq<Tag>, defaultProjectId: Option<string>)
      ensures title == "" && notes == "" && dueDate == ""
      ensures status == Todo && priority == Medium
      ensures projectId == (if defaultProjectId.Some? then defaultProjectId.value else "")
      ensures selectedTagIds == [] && newTagName == ""
      ensures localTags == allTags && error == None
    {
      title := "";
      notes := "";
      status := Todo;
      priority := Medium;
      dueDate := "";
      projectId := if defaultProjectId.Some? then defaultProjectId.value else "";
      selectedTagIds := [];
      newTagName := "";
      localTags := allTags;
      error := None;
    }

    function Fields(): FormFields
      reads this
    {
      FormFields(title, notes, status, priority, dueDate, projectId, selectedTagIds)
    }

    /** A click on an offered tag: the selection is toggled. */
    method ToggleTag(id: string)
      modifies this`selectedTagIds
      ensures selectedTagIds == Toggle(old(selectedTagIds), id)
      ensures id in selectedTagIds <==> id !in old(selectedTagIds)
      ensures Distinct(old(selectedTagIds)) ==> Distinct(selectedTagIds)
    {
      ToggleFlips(selectedTagIds, id);
      selectedTagIds := Toggle(selectedTagIds, id);
    }

    /** `handleCreateTag`: nothing happens for an empty normalised name or a
        name the tag action rejects; otherwise the answered tag is offered
        (once), its id is appended to the selection and the input clears. */
    method CreateTag(tags: TagStore, newId: string)
      requires tags.Valid() && newId !in tags.tags
      modifies this`selectedTagIds, this`newTagName, this`localTags, tags
      ensures tags.Valid()
      ensures IdsDistinct(old(localTags)) ==> IdsDistinct(localTags)
      ensures var name := NormaliseTagName(old(newTagName));
        if name == "" || !ValidTagName(name) then
          && tags.tags == old(tags.tags) && selectedTagIds == old(selectedTagIds)
          && newTagName == old(newTagName) && localTags == old(localTags)
        else
          && |selectedTagIds| == |old(selectedTagIds)| + 1
          && selectedTagIds[..|old(selectedTagIds)|] == old(selectedTagIds)
          && (var id := selectedTagIds[|old(selectedTagIds)|];
              && id in tags.tags && tags.tags[id] == name
              && localTags == AddLocalTag(old(localTags), Named(id, name)))
          && (name in old(tags.tags).Values ==> tags.tags == old(tags.tags))
          && (name !in old(tags.tags).Values ==> tags.tags == old(tags.tags)[newId := name])
          && newTagName == ""
    {
      var name := NormaliseTagName(newTagName);
      if name == "" {
        return;
      }
      var created := tags.CreateTag(name, newId);
      if created.Success? {
        AddLocalTagProperties(localTags, created.value);
        localTags := AddLocalTag(localTags, created.value);
        selectedTagIds := selectedTagIds + [created.value.id];
        newTagName := "";
      }
    }

    /** `handleSubmit`: the fields go to the create action as form data
        under the fresh id `id`; the new row links exactly the selected
        ids, in selection order. */
    method Submit(store: TaskStore, id: string, dateOf: string -> int) returns (outcome: Outcome)
      requires store.Valid() && id !in store.tasks
      modifies store, this`error
      ensures store.Valid()
      ensures outcome == if ValidTitle(title) then Pass else Fail(Invalid)
      ensures outcome.Fail? ==>
        store.tasks == old(store.tasks) && store.links == old(store.links) && error == Some(Invalid)
      ensures outcome.Pass? ==>
        && error == None
        && store.tasks == old(store.tasks)[id := Task(title, NonEmpty(Some(notes)), status, priority,
                                                      if dueDate == "" then None else Some(dateOf(dueDate)),
                                                      None, NonEmpty(Some(projectId)))]
        && store.links == old(store.links)[id := selectedTagIds]
    {
      error := None;
      var fd := BuildFormData(Fields());
      EncodedFormParses(Fields());
      outcome := store.CreateTask(fd, id, dateOf);
      if outcome.Fail? {
        error := Some(outcome.error);
      }
    }
  }
}
