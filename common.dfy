/** Vocabulary shared by the task manager's server actions, page and client
    components: optional values, the outcome of an action, the two
    enumerations of the data model and the rows the stores keep. */
module Common {

  datatype Option<+T> = None | Some(value: T)

  /** Why a server action failed: its schema rejected the input, or the row
      it names does not exist (the store's "record not found"). */
  datatype Error = Invalid | NotFound

  /** The result of an action that returns a row. */
  datatype Result<+T> = Success(value: T) | Failure(error: Error)

  /** The result of an action that returns nothing. */
  datatype Outcome = Pass | Fail(error: Error)

  datatype Status = Todo | InProgress | Done

  datatype Priority = Low | Medium | High

  /** The enumeration value as the store and the forms spell it. */
  function StatusName(s: Status): string {
    match s
    case Todo => "TODO"
    case InProgress => "IN_PROGRESS"
    case Done => "DONE"
  }

  function PriorityName(p: Priority): string {
    match p
    case Low => "LOW"
    case Medium => "MEDIUM"
    case High => "HIGH"
  }

  /** The status a string names, if it names one (an enum check). */
  function ParseStatus(text: string): (r: Option<Status>)
    ensures r.Some? ==> StatusName(r.value) == text
    ensures r.None? ==> forall s: Status :: StatusName(s) != text
  {
    if text == "TODO" then Some(Todo)
    else if text == "IN_PROGRESS" then Some(InProgress)
    else if text == "DONE" then Some(Done)
    else None
  }

  /** The priority a string names, if it names one. */
  function ParsePriority(text: string): (r: Option<Priority>)
    ensures r.Some? ==> PriorityName(r.value) == text
    ensures r.None? ==> forall p: Priority :: PriorityName(p) != text
  {
    if text == "LOW" then Some(Low)
    else if text == "MEDIUM" then Some(Medium)
    else if text == "HIGH" then Some(High)
    else None
  }

  /** Spelling a status and parsing it back gives the status again. */
  lemma StatusNameRoundTrip(s: Status)
    ensures ParseStatus(StatusName(s)) == Some(s)
  {
  }

  lemma PriorityNameRoundTrip(p: Priority)
    ensures ParsePriority(PriorityName(p)) == Some(p)
  {
  }

  /** An optional string as JavaScript's truthiness sees it: kept when it is
      present and not empty, absent otherwise (`value || null`). */
  function NonEmpty(v: Option<string>): (r: Option<string>)
    ensures r.Some? <==> v.Some? && v.value != ""
    ensures r.Some? ==> r == v
  {
    if v.Some? && v.value != "" then v else None
  }

  /** `value || fallback` on an optional string. */
  function OrElse(v: Option<string>, fallback: string): (r: string)
    ensures v.Some? && v.value != "" ==> r == v.value
    ensures (v.None? || v.value == "") ==> r == fallback
  {
    match NonEmpty(v)
    case Some(x) => x
    case None => fallback
  }

  /** A task row as the actions write it; its id is the key it is stored
      under. Timestamps (due date, completion time) are integers. */
  datatype Task = Task(
    title: string,
    notes: Option<string>,
    status: Status,
    priority: Priority,
    dueDate: Option<int>,
    completedAt: Option<int>,
    projectId: Option<string>)

  /** A tag and a project are both a row with an id and a name. */
  datatype Named = Named(id: string, name: string)

  type Tag = Named

  type Project = Named

  /** `i` is the first index of `rows` holding the id `id`. */
  predicate FirstWithId(rows: seq<Named>, id: string, i: int)
  {
    0 <= i < |rows| && rows[i].id == id && forall j :: 0 <= j < i ==> rows[j].id != id
  }

  /** The first row whose id is `id`, as `Array.prototype.find` answers it:
      the row found sits at the first index holding the id, and none found
      means no row has it. */
  function FindById(rows: seq<Named>, id: string): (r: Option<Named>)
    ensures r.Some? ==> exists i :: FirstWithId(rows, id, i) && rows[i] == r.value
    ensures r.None? ==> forall i :: 0 <= i < |rows| ==> rows[i].id != id
  {
    if rows == [] then None
    else if rows[0].id == id then
      assert FirstWithId(rows, id, 0);
      Some(rows[0])
    else
      var r := FindById(rows[1..], id);
      FirstWithIdShift(rows, id, r);
      r
  }

  /** The row at the first index holding the id is the one found. */
  lemma {:induction false} FindByIdAtFirst(rows: seq<Named>, id: string, i: int)
    requires FirstWithId(rows, id, i)
    ensures FindById(rows, id) == Some(rows[i])
  {
    if i > 0 {
      assert FirstWithId(rows[1..], id, i - 1);
      FindByIdAtFirst(rows[1..], id, i - 1);
    }
  }

  /** A first match in the tail of `rows` is a first match in `rows` one
      index later, when the head does not hold the id. */
  lemma FirstWithIdShift(rows: seq<Named>, id: string, r: Option<Named>)
    requires rows != [] && rows[0].id != id
    requires r.Some? ==> exists i :: FirstWithId(rows[1..], id, i) && rows[1..][i] == r.value
    ensures r.Some? ==> exists i :: FirstWithId(rows, id, i) && rows[i] == r.value
  {
    if r.Some? {
      var i :| FirstWithId(rows[1..], id, i) && rows[1..][i] == r.value;
      assert FirstWithId(rows, id, i + 1) by {
        forall j | 0 <= j < i + 1 ensures rows[j].id != id {
          if j > 0 {
            assert rows[j] == rows[1..][j - 1];
          }
        }
      }
    }
  }
}
