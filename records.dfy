/** Optional and fallible results. */
module Wrappers {
  datatype Option<+T> = None | Some(value: T)

  datatype Result<+T, +E> = Success(value: T) | Failure(error: E)
}

/** The stored records the core reads, restricted to the fields it uses. The
    decimal columns (gpa, ielts, budget, cost, acceptanceRate) and every
    field of the JSON requirements can arrive as numbers or as strings and
    are `Js.Value`s; the integer columns are `Js.NumberOrNull`. */
module Records {
  import opened Js
  import opened Wrappers

  /** Record identifiers (UUIDs in the database). */
  type Id = string

  /** A university's admission requirements; a field left out of the JSON
      object is `Undefined`. */
  datatype Requirements = Requirements(
    gpa: Value,
    ielts: Value,
    toefl: Value,
    gre: Value,
    gmat: Value)

  datatype University = University(
    id: Id,
    name: string,
    country: string,
    city: string,
    ranking: NumberOrNull,
    cost: Value,
    acceptanceRate: Value,
    requirements: Requirements)

  /** A student profile. `sopStatus` and `stage` are strings; the empty
      string stands for a missing value. */
  datatype Profile = Profile(
    id: Id,
    userId: Id,
    gpa: Value,
    ielts: Value,
    toefl: NumberOrNull,
    gre: NumberOrNull,
    gmat: NumberOrNull,
    budget: Value,
    sopStatus: string,
    isCompleted: bool,
    stage: string)

  /** An entry of an application's task checklist. */
  datatype Task = Task(
    id: int,
    title: string,
    description: string,
    dueDate: string,
    priority: string,
    category: string,
    completed: bool)

  /** An entry of an application's document checklist. */
  datatype Document = Document(
    id: int,
    name: string,
    docType: string,
    status: string,
    dueDate: string,
    uploaded: bool)

  /** The six values of the `applicationStatus` column. */
  datatype ApplicationStatus = NotStarted | InProgress | Submitted | Accepted | Rejected | Waitlisted

  /** The status named by a request string, if it is one of the six. */
  function StatusNamed(s: string): (r: Option<ApplicationStatus>)
    ensures r.Some? <==> s in {"Not Started", "In Progress", "Submitted", "Accepted", "Rejected", "Waitlisted"}
  {
    if s == "Not Started" then Some(NotStarted)
    else if s == "In Progress" then Some(InProgress)
    else if s == "Submitted" then Some(Submitted)
    else if s == "Accepted" then Some(Accepted)
    else if s == "Rejected" then Some(Rejected)
    else if s == "Waitlisted" then Some(Waitlisted)
    else None
  }

  /** A student's application to one university. `deadline` is "" when
      unset, otherwise the stored date as the database sends it back. */
  datatype Application = Application(
    id: Id,
    profileId: Id,
    universityId: Id,
    isLocked: bool,
    applicationStatus: ApplicationStatus,
    deadline: string,
    tasks: seq<Task>,
    documents: seq<Document>)

  /** The risk tier of a university for a student. */
  datatype Category = Dream | Target | Safe

  /** A university as the client lists it: the recommendation endpoint adds
      the score, the tier and the two flags; a plain listing has no score and
      no tier, and its absent flags read as false. */
  datatype Entry = Entry(
    university: University,
    fitScore: Option<int>,
    category: Option<Category>,
    isShortlisted: bool,
    isLocked: bool)
}
