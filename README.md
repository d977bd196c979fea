# Task manager core in Dafny

This project models the rules inside a small web task manager. The manager keeps tasks with optional projects and tags. Five groups of rules are modelled:

- **Task actions.** The task schema and the defaults applied to a submitted form (`common.dfy`, `task_actions.dfy`). The two rules for the completion time: the full update keeps a DONE→DONE completion time, while the status-only update restamps it. Create, full update, status update and delete run over a task store. The store keeps the rows by id, and for each row the tag ids linked to it.
- **Tag and project actions.** The tag-name and project-name schemas (`tag_actions.dfy`, `project_actions.dfy`). Tag creation is an upsert keyed by name, so names stay unique. Project create, update and delete are also modelled.
- **Home page query** (`home_page.dfy`). The optional search parameters become an AND of filter clauses, and a `Matches` predicate states what each clause means. The ordering is a two-entry sequence: an allow-listed field with fallbacks, then createdAt descending. The page title follows a fixed precedence.
- **Client helpers** shared by the two task forms (`forms.dfy`):
  - trimming, lower-casing and whitespace-run collapsing of a typed tag name;
  - the tag-selection toggle;
  - the form data a form submits.
- **Components.** The task list entry and its edit form (`task_item.dfy`), the new-task form (`task_form.dfy`), and the filter sidebar's `buildHref` with its links (`filters.dfy`).

URLSearchParams and FormData are both modelled as an ordered list of name/value pairs (`key_values.dfy`). The two objects share the same list operations. URLSearchParams is specified in section 6.2 of the WHATWG URL Standard, and FormData by the FormData interface of the WHATWG XMLHttpRequest Standard:

- `get` returns the first value for a name;
- `getAll` returns every value, in order;
- `append` adds a pair at the end;
- `delete` removes every pair with the name;
- `set` overwrites the first pair and removes the later ones, or appends a pair when there is none.

Stateful parts are classes:

- the task, tag and project tables (`TaskStore`, `TagStore`, `ProjectStore`);
- each form's `useState` cells (`TaskEditForm`, `TaskForm`).

The `buildHref` loop is a method whose `for` loop carries an invariant. Ids are strings. The id the database would generate for a new row is a parameter, with the precondition that it is not in use. Dates are integer timestamps. "Now" is a parameter. The two date conversions are function parameters:

- `dateOf` stands for `new Date(text)`;
- `isoDate` stands for the ISO calendar date of a timestamp.

Three behaviours of the code are worth stating on their own:

- **Completion time at creation.** `createTask` writes no completion time, even for a task created DONE (app/actions/task-actions.ts:32-44). So "a task has a completion time exactly when it is DONE" fails for such rows. `TaskActions.CompletionConsistency` proves that a created task is consistent exactly when its status is not DONE.
- **Priority ordering.** Sorting by priority emits only the ordering value `{ priority: direction }` (app/page.tsx:50-55). The model describes that value, not how the database compares enum values.
- **Empty notes on update.** An empty notes field becomes `undefined`, and the update then leaves the stored notes as they were (app/actions/task-actions.ts:53,76). It does not clear them.

## Model

| member | source | states |
|---|---|---|
| Common.ParseStatus | app/actions/task-actions.ts:11 | the status enum check accepts exactly the three spellings |
| Common.ParsePriority | app/actions/task-actions.ts:12 | the priority enum check accepts exactly the three spellings |
| Common.StatusNameRoundTrip | app/actions/task-actions.ts:11 | a status's spelling parses back to that status |
| Common.PriorityNameRoundTrip | app/actions/task-actions.ts:12 | a priority's spelling parses back to that priority |
| Common.NonEmpty | app/actions/task-actions.ts:22-26 | `value \|\| null`: present iff present and non-empty, and then the same value |
| Common.OrElse | app/actions/task-actions.ts:23-24 | `value \|\| fallback`: the value if non-empty, else the fallback |
| Common.FindById | app/page.tsx:81-82 | like `find`, the row found is the one at the first index holding the id; none found means no row has the id (shared by projects and tags) |
| Common.FindByIdAtFirst | app/page.tsx:81-82 | the row at the first index holding the id is exactly what the lookup answers |
| KeyValues.GetIsFirstOfAll | app/actions/task-actions.ts:19-21 | `get` is the first element of `getAll`, and absent when that is empty |
| KeyValues.GetAt | app/actions/task-actions.ts:21-26 | `get` returns the value of the first pair with the name |
| KeyValues.DeleteGetAll | app/components/Filters.tsx:29-30 | after `delete`, the name has no values and every other name keeps its values |
| KeyValues.SetGetAll | app/components/Filters.tsx:31-32 | after `set`, the name has exactly the one value and every other name keeps its values |
| KeyValues.SetDeleteTouchOnlyTheirName | app/components/Filters.tsx:27-34 | `set` and `delete` leave the pairs of all other names, in order |
| KeyValues.SetSettled | app/components/Filters.tsx:31-32 | `set` on a name whose only value is already that value changes nothing |
| KeyValues.DeleteSettled | app/components/Filters.tsx:29-30 | `delete` of an absent name changes nothing |
| KeyValues.AppendGetAll | app/components/TaskItem.tsx:228-234 | `append` adds one value at the end of its name's values and leaves other names alone |
| KeyValues.Get | app/actions/task-actions.ts:21-26 | definition: the value of the first pair with the name, absent when there is none (properties in GetIsFirstOfAll and GetAt) |
| KeyValues.GetAll | app/actions/task-actions.ts:19 | definition: the values of every pair with the name, in list order |
| KeyValues.Delete | app/components/Filters.tsx:30 | definition: the list without any pair of that name, the rest in order (properties in DeleteGetAll) |
| KeyValues.Set | app/components/Filters.tsx:32 | definition: overwrite the first pair of the name and drop its later pairs, or append a pair when there is none (properties in SetGetAll) |
| TaskActions.ParseTask | app/actions/task-actions.ts:8-30 | accepted iff a title of 1..200 is present and status and priority are enum values; a rejection is a validation error; on success the fields are those of the raw object |
| TaskActions.TitleRule | app/actions/task-actions.ts:9-30 | a missing title or one outside 1..200 is rejected; an accepted form's title is its title field |
| TaskActions.StatusAndPriorityDefaults | app/actions/task-actions.ts:11-30 | an empty or missing status/priority becomes TODO/MEDIUM; any other non-enum value rejects the form |
| TaskActions.RawFromForm | app/actions/task-actions.ts:19-28 | definition: title as read; notes, due date and project kept only when non-empty; status and priority with their TODO/MEDIUM fallbacks; every `tagIds` value in order |
| TaskActions.ValidTitle | app/actions/task-actions.ts:9 | definition: a title of 1 to 200 characters (used by ParseTask and TitleRule) |
| TaskActions.DueDateOf | app/actions/task-actions.ts:38 | definition: a present due date converted with `dateOf`, otherwise none; the full update uses the same rule (line 79) |
| TaskActions.NewTask | app/actions/task-actions.ts:32-44 | definition: the schema's fields, the due date converted, and no completion time whatever the status (consequence in CompletionConsistency) |
| TaskActions.FullUpdateCompletedAt | app/actions/task-actions.ts:63-70 | definition: DONE over a stored DONE row keeps its completion time, DONE otherwise stamps now, any other status clears it (properties in FullUpdateKeepsCompletionTime and FullUpdateStampsOrClears) |
| TaskActions.UpdatedTask | app/actions/task-actions.ts:72-86 | definition: the schema's fields over the prior row, undefined notes keeping the stored notes, an absent due date or project clearing it, and the given completion time |
| TaskActions.StatusUpdateCompletedAt | app/actions/task-actions.ts:93 | a completion time is written iff the status is DONE, and it is now |
| TaskActions.FullUpdateKeepsCompletionTime | app/actions/task-actions.ts:63-70 | full update DONE→DONE keeps the stored completion time |
| TaskActions.FullUpdateStampsOrClears | app/actions/task-actions.ts:65-70 | full update newly DONE stamps now; any other status clears the completion time |
| TaskActions.UpdatesDisagreeOnDoneToDone | app/actions/task-actions.ts:65-93 | for DONE→DONE with any stored completion time other than now, including none, the two updates write different completion times |
| TaskActions.CompletionConsistency | app/actions/task-actions.ts:32-96 | the status update always leaves "completion time iff DONE"; the full update preserves it; a created task has it iff it is not DONE |
| TaskActions.TaskStore.CreateTask | app/actions/task-actions.ts:18-47 | accepted iff the schema accepts; then exactly one row (no completion time) and exactly the submitted tag links are added; rejection writes nothing |
| TaskActions.TaskStore.UpdateTask | app/actions/task-actions.ts:49-90 | validation first, then NotFound for a missing id; on success only that row changes, with the full-update completion time, undefined notes kept, and its links replaced by exactly the submitted ids |
| TaskActions.TaskStore.UpdateTaskStatus | app/actions/task-actions.ts:92-99 | only the row's status and completion time change; links untouched; NotFound for a missing id |
| TaskActions.TaskStore.DeleteTask | app/actions/task-actions.ts:101-104 | only that row and its links go; NotFound for a missing id |
| TagActions.TagStore.CreateTag | app/actions/tag-actions.ts:7-26 | an invalid name fails with nothing written; an existing name answers that tag unchanged; a new name adds exactly one tag; names stay unique |
| TagActions.TagStore.DeleteTag | app/actions/tag-actions.ts:28-31 | only the tag with that id goes; names stay unique |
| TagActions.CreateTwice | app/actions/tag-actions.ts:15-26 | creating the same name twice answers the same tag, and only the first call can add a row |
| TagActions.ValidTagName | app/actions/tag-actions.ts:7-13 | definition: 1 to 50 characters, each a lower-case ASCII letter, a digit or a hyphen |
| ProjectActions.ParseProjectForm | app/actions/project-actions.ts:7-13 | accepted iff a name of 1..100 is present, and then it is that name |
| ProjectActions.ValidProjectName | app/actions/project-actions.ts:7-9 | definition: a name of 1 to 100 characters |
| ProjectActions.ProjectStore.CreateProject | app/actions/project-actions.ts:11-17 | an invalid name writes nothing; a valid one adds exactly that project |
| ProjectActions.ProjectStore.UpdateProject | app/actions/project-actions.ts:19-25 | validation first, then NotFound; on success only that project's name changes |
| ProjectActions.ProjectStore.DeleteProject | app/actions/project-actions.ts:27-30 | only that project goes; NotFound for a missing id |
| HomePage.BuildWhere | app/page.tsx:26-40 | a project/tag/search clause iff that parameter is non-empty, carrying it; a status clause iff the status is one of the three enum spellings |
| HomePage.ContainsIsSubstring | app/page.tsx:35-40 | the `contains` test holds iff the text occurs at some position |
| HomePage.Matches | app/page.tsx:26-40 | definition: a task matches when it meets every clause present: same project, same status, a link to the tag, and the search text in its title or its notes (properties in SearchClause and FiltersOnlyNarrow) |
| HomePage.BogusStatusIgnored | app/page.tsx:29-31 | a status that is not an enum value gives the same filter as no status |
| HomePage.SearchClause | app/page.tsx:35-40 | an empty search adds no clause; a non-empty one keeps exactly the tasks whose title or notes contain it |
| HomePage.FiltersOnlyNarrow | app/page.tsx:26-40 | clauses combine with AND: dropping parameters never loses a match, and no parameters match every task |
| HomePage.BuildOrderBy | app/page.tsx:43-61 | two entries, the second always createdAt descending; ascending iff "asc"; the allow-listed field, otherwise createdAt |
| HomePage.BuildQuery | app/page.tsx:23-61 | the step-by-step construction, including the priority branch, produces exactly that filter and ordering |
| HomePage.UnknownSortFieldIsCreatedAt | app/page.tsx:23-44 | an unknown or missing sort field orders as createdAt does |
| HomePage.PageTitle | app/page.tsx:81-94 | definition: the nested conditional over the looked-up project, the looked-up tag and the status (precedence proved in PageTitlePrecedence) |
| HomePage.CurrentProject | app/page.tsx:81 | definition: the first project with the `project` parameter's id when that parameter is non-empty, otherwise none |
| HomePage.CurrentTag | app/page.tsx:82 | definition: the first tag with the `tag` parameter's id when that parameter is non-empty, otherwise none |
| HomePage.PageTitlePrecedence | app/page.tsx:81-94 | the found project's name, else `#` and the found tag's name, else the label of the applied status, else "All Tasks" |
| Forms.TrimEmptyIffAllSpace | app/components/TaskItem.tsx:245-246 | trimming leaves nothing exactly when only whitespace was typed |
| Forms.NormaliseTagName | app/components/TaskItem.tsx:245 | definition: trim, lower-case, then each whitespace run becomes one hyphen (properties in NormalisedName and NormalisedNameIsValidTagName) |
| Forms.CollapseRun | app/components/TaskItem.tsx:245 | a whitespace run after a word becomes exactly one hyphen |
| Forms.NormalisedName | app/components/TaskItem.tsx:245-246 | the normalised name has no whitespace and no upper-case letter, is empty iff only whitespace was typed, and normalising again changes nothing |
| Forms.NormalisedNameIsValidTagName | app/components/TaskItem.tsx:245-248 | a name typed from letters, digits, hyphens and spaces normalises to a valid tag name when its length is 1..50 |
| Forms.RemoveIdMembers | app/components/TaskItem.tsx:336 | the filter keeps exactly the other ids, keeps a duplicate-free list duplicate-free, and changes nothing when the id is absent |
| Forms.RemoveId | app/components/TaskItem.tsx:336 | definition: the ids other than the removed one, in order (properties in RemoveIdMembers) |
| Forms.Toggle | app/components/TaskItem.tsx:333-339 | definition: drop the id when selected, otherwise append it (properties in ToggleFlips and ToggleTwice) |
| Forms.ToggleFlips | app/components/TaskItem.tsx:333-339 | a click flips the tag's membership and no other's, and keeps the selection duplicate-free |
| Forms.ToggleTwice | app/components/TaskItem.tsx:333-339 | two clicks restore every membership, and the very selection when the tag was not selected |
| Forms.TagEntriesGetAll | app/components/TaskItem.tsx:234 | the appended `tagIds` pairs read back as the selected ids in order |
| Forms.BuildFormData | app/components/TaskItem.tsx:227-234 | the loop builds the six fields then one pair per selected id; `getAll("tagIds")` is the selection |
| Forms.EncodedFormParses | app/components/TaskForm.tsx:43-51 | the submitted form parses to exactly its fields (empty notes, due date and project read as absent) iff its title has 1..200 characters |
| TaskItemComponent.StatusCycle | app/components/TaskItem.tsx:104-108 | each step changes the status, the cycle visits all three, and three steps return to the start |
| TaskItemComponent.StatusLabel | app/components/TaskItem.tsx:36-40 | definition: "To Do", "In Progress" and "Done" for the three statuses |
| TaskItemComponent.NextStatus | app/components/TaskItem.tsx:104-108 | definition: TODO to IN_PROGRESS to DONE to TODO (properties in StatusCycle) |
| TaskItemComponent.IsOverdue | app/components/TaskItem.tsx:83-86 | definition: a due date is set, the task is not DONE, and the due date lies before now (properties in OverdueRules) |
| TaskItemComponent.OverdueRules | app/components/TaskItem.tsx:83-86 | never overdue without a due date or when DONE; overdue stays overdue as time passes; a due date not yet passed is not overdue; marking DONE clears it |
| TaskItemComponent.AdvanceStatus | app/components/TaskItem.tsx:102-110 | the button rewrites only that row's status, to the one after the rendered status, and its completion time, to the status update's (now iff DONE); the row is then consistent; no other row and no link changes |
| TaskItemComponent.TaskEditForm.constructor | app/components/TaskItem.tsx:207-218 | the form starts from the task's fields, with empty text for missing ones and the task's tag ids in order |
| TaskItemComponent.TaskEditForm.ToggleTag | app/components/TaskItem.tsx:333-339 | the selection is toggled: membership flips and duplicate-freeness is kept |
| TaskItemComponent.TaskEditForm.CreateTag | app/components/TaskItem.tsx:244-254 | an empty or rejected name changes nothing; otherwise the tag's id is appended (no membership check) and the input clears |
| TaskItemComponent.TaskEditForm.Submit | app/components/TaskItem.tsx:222-242 | a bad title or missing task writes nothing and sets the error; otherwise the row gets the form's fields and completion time and its links become the selection |
| TaskFormComponent.AddLocalTagProperties | app/components/TaskForm.tsx:65-68 | looking up the created id afterwards finds the tag already offered under it, or else the created tag itself; earlier tags keep their places; one entry is added iff the id was new; ids stay distinct |
| TaskFormComponent.AddLocalTag | app/components/TaskForm.tsx:65-68 | definition: the offered tags unchanged when one already has the created tag's id, otherwise the tag appended (properties in AddLocalTagProperties) |
| TaskFormComponent.TaskForm.constructor | app/components/TaskForm.tsx:26-34 | empty fields, TODO, MEDIUM, no tags selected, project as given or empty, every tag offered |
| TaskFormComponent.TaskForm.ToggleTag | app/components/TaskForm.tsx:155-161 | the selection is toggled: membership flips and duplicate-freeness is kept |
| TaskFormComponent.TaskForm.CreateTag | app/components/TaskForm.tsx:60-74 | an empty or rejected name changes nothing; otherwise the tag is offered once, its id appended to the selection unconditionally, and the input clears |
| TaskFormComponent.TaskForm.Submit | app/components/TaskForm.tsx:38-58 | accepted iff the title has 1..200 characters; the new row carries the fields and links exactly the selected ids in order |
| FiltersComponent.BuildHref | app/components/Filters.tsx:26-36 | the loop applies the updates in order; with distinct keys each cleared key is absent and each set key has exactly its value; other keys keep their pairs |
| FiltersComponent.UpdatesSettle | app/components/Filters.tsx:28-34 | with distinct keys every update holds in the result |
| FiltersComponent.UpdatesKeepOtherKeys | app/components/Filters.tsx:27-34 | pairs of keys outside the updates are kept, in order |
| FiltersComponent.OtherKeyUnchanged | app/components/Filters.tsx:27-34 | a key no update names keeps its values and its `get` |
| FiltersComponent.UpdatesIdempotent | app/components/Filters.tsx:28-34 | applying the same updates twice gives what applying them once gives |
| FiltersComponent.ApplyUpdates | app/components/Filters.tsx:27-34 | definition: each update in turn deletes its key when its value is null or empty, and sets it otherwise (properties in UpdatesSettle, UpdatesKeepOtherKeys and UpdatesIdempotent) |
| FiltersComponent.ApplyUpdate | app/components/Filters.tsx:29-33 | definition: `delete` the key when the value is null or empty, `set` it otherwise (properties in ApplyUpdateSettles) |
| FiltersComponent.StatusLink | app/components/Filters.tsx:55 | definition: set the status to the entry's value, clear project and tag |
| FiltersComponent.ProjectLink | app/components/Filters.tsx:74 | definition: set the project, clear status and tag |
| FiltersComponent.TagLink | app/components/Filters.tsx:96 | definition: set the tag, clear project and status |
| FiltersComponent.StatusActive | app/components/Filters.tsx:38-57 | definition: the current status is the entry's value, and no project and no tag is current |
| FiltersComponent.Current | app/components/Filters.tsx:38-40 | definition: `get(key) ?? ""`, the key's first value or empty text |
| FiltersComponent.StatusLinkClearsTheOthers | app/components/Filters.tsx:55 | a status link removes project and tag, sets or removes status, and keeps every other key |
| FiltersComponent.ProjectLinkClearsTheOthers | app/components/Filters.tsx:74 | a project link removes status and tag, sets the project, and keeps every other key |
| FiltersComponent.TagLinkClearsTheOthers | app/components/Filters.tsx:96 | a tag link removes project and status, sets the tag, and keeps every other key |
| FiltersComponent.FollowedLinkIsHighlighted | app/components/Filters.tsx:38-57 | after a status link exactly that status entry is highlighted; after a project or tag link none is, and that project or tag is current |

## Left out

- Database calls are abstracted as updates of in-memory maps. Each action's writes are one atomic step. Error messages, `revalidatePath`, `async`/`await` and loading flags are not modelled.
- Rules that live in the database schema, which is not part of this model: foreign-key checks on `projectId` and `tagIds`, and a unique key on task–tag links (so a duplicate id in `tagIds` is stored twice here). Also the cascades when a project or tag is deleted, and the `createdAt`/`updatedAt` columns. Deleting a task does remove its links here (`TaskStore.DeleteTask`); that stands for the schema's cascade from a task to its links.
- How the database orders the priority enum: only the ordering value is modelled.
- Running the filter and ordering against the table is left out. `Matches` states what the filter means instead.
- HomePage.Matches: `contains` is taken as an exact, case-sensitive substring test. Whether the store compares without case depends on its provider and collation, which are not modelled.
- `confirm()` before delete, `console.error`, rendering and styling, and the setters of the plain input fields, which just store what was typed.
- Files in FormData. Array-valued search parameters.
- Serialising `buildHref`'s parameters and prefixing the path.
- `new Date(...)`, the ISO date split and `toLocaleDateString` are parameters or not modelled. So is the handling of unparsable due dates.
- Forms.NormaliseTagName: lower-cases ASCII letters only, because Unicode case mapping is not modelled.
- TaskActions.ValidTitle: counts characters, not the UTF-16 code units JavaScript counts. The same holds for tag and project names.
- TaskItemComponent.TaskEditForm.Submit: the edit form closing on success (`onClose`) is not modelled; its effect is the parent's `editing` flag.
