/** The bug schema: its two enumerations, their defaults, the "no one" sentinel and the required paths. */
module BugModel {
  import opened Wrappers
  import opened ObjectIds

  datatype BugStatus = Open | InProgress | Closed

  datatype Priority = Low | Medium | High

  /** The string the schema stores for each status. */
  function BugStatusText(s: BugStatus): string {
    match s
    case Open => "open"
    case InProgress => "in progress"
    case Closed => "closed"
  }

  function PriorityText(p: Priority): string {
    match p
    case Low => "low"
    case Medium => "medium"
    case High => "high"
  }

  /** The schema's `enum` check on status: exactly the three listed strings are accepted. */
  function ParseBugStatus(t: string): (r: Option<BugStatus>)
    ensures forall s :: r == Some(s) <==> BugStatusText(s) == t
  {
    if t == "open" then Some(Open)
    else if t == "in progress" then Some(InProgress)
    else if t == "closed" then Some(Closed)
    else None
  }

  /** The schema's `enum` check on priority. */
  function ParsePriority(t: string): (r: Option<Priority>)
    ensures forall p :: r == Some(p) <==> PriorityText(p) == t
  {
    if t == "low" then Some(Low)
    else if t == "medium" then Some(Medium)
    else if t == "high" then Some(High)
    else None
  }

  const DefaultBugStatus: BugStatus := Open
  const DefaultPriority: Priority := Medium

  /** The default of `takedBy`: nobody has taken the bug. */
  const NoOne: string := "no one"

  /** A stored bug. `takedBy` is a plain String path: either the sentinel or whatever was written to it. */
  datatype Bug = Bug(
    title: string,
    description: string,
    status: BugStatus,
    priority: Priority,
    createdBy: Id,
    takedBy: string)

  /** The sentinel can never be mistaken for a user's id. */
  lemma NoOneIsNotAnId()
    ensures !IsObjectIdText(NoOne)
  {
  }

  /** An enumerated path: an absent value takes the default, a present one must parse. */
  function StatusPath(v: Option<string>): Option<BugStatus> {
    if v.None? then Some(DefaultBugStatus) else ParseBugStatus(v.value)
  }

  function PriorityPath(v: Option<string>): Option<Priority> {
    if v.None? then Some(DefaultPriority) else ParsePriority(v.value)
  }

  /**
   * `Bug.create(...)`: validates the document against the schema and applies its defaults.
   * A missing or empty required string, a missing creator or a value outside an enumeration
   * makes the creation throw a validation error.
   */
  function NewBug(title: Option<string>, description: Option<string>, status: Option<string>,
                  priority: Option<string>, createdBy: Option<Id>, takedBy: Option<string>): (r: Result<Bug>)
    ensures r.Ok? <==>
              && Truthy(title) && Truthy(description) && createdBy.Some?
              && (status.None? || ParseBugStatus(status.value).Some?)
              && (priority.None? || ParsePriority(priority.value).Some?)
    ensures r.Fail? ==> r.error == Thrown
    ensures r.Ok? ==>
              && r.value.title == title.value
              && r.value.description == description.value
              && r.value.createdBy == createdBy.value
    ensures r.Ok? && status.None? ==> r.value.status == DefaultBugStatus
    ensures r.Ok? && status.Some? ==> BugStatusText(r.value.status) == status.value
    ensures r.Ok? && priority.None? ==> r.value.priority == DefaultPriority
    ensures r.Ok? && priority.Some? ==> PriorityText(r.value.priority) == priority.value
    ensures r.Ok? && takedBy.None? ==> r.value.takedBy == NoOne
    ensures r.Ok? && takedBy.Some? ==> r.value.takedBy == takedBy.value
  {
    var st := StatusPath(status);
    var pr := PriorityPath(priority);
    if !Truthy(title) || !Truthy(description) || createdBy.None? || st.None? || pr.None? then
      Fail(Thrown)
    else
      Ok(Bug(title.value, description.value, st.value, pr.value, createdBy.value,
             if takedBy.Some? then takedBy.value else NoOne))
  }
}
