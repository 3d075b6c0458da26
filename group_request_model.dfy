/** The membership request schema: kind and status enumerations, the default status and the required references. */
module GroupRequestModel {
  import opened Wrappers
  import opened ObjectIds

  /** The `type` path: a user asking to join, or a manager inviting a user. */
  datatype Kind = Request | Invite

  datatype RequestStatus = Pending | Accepted | Rejected

  function KindText(k: Kind): string {
    match k
    case Request => "request"
    case Invite => "invite"
  }

  function RequestStatusText(s: RequestStatus): string {
    match s
    case Pending => "pending"
    case Accepted => "accepted"
    case Rejected => "rejected"
  }

  /** The schema's `enum` check on `type`. */
  function ParseKind(t: string): (r: Option<Kind>)
    ensures forall k :: r == Some(k) <==> KindText(k) == t
  {
    if t == "request" then Some(Request)
    else if t == "invite" then Some(Invite)
    else None
  }

  /** The schema's `enum` check on `status`. */
  function ParseRequestStatus(t: string): (r: Option<RequestStatus>)
    ensures forall s :: r == Some(s) <==> RequestStatusText(s) == t
  {
    if t == "pending" then Some(Pending)
    else if t == "accepted" then Some(Accepted)
    else if t == "rejected" then Some(Rejected)
    else None
  }

  const DefaultRequestStatus: RequestStatus := Pending

  datatype GroupRequest = GroupRequest(group: Id, user: Id, kind: Kind, status: RequestStatus)

  /**
   * `GroupRequest.create(...)`: `group`, `user` and `type` are required, `type` and `status`
   * must be listed values, and a missing status becomes pending. Anything else throws a
   * validation error.
   */
  function NewGroupRequest(group: Option<Id>, user: Option<Id>, kind: Option<string>,
                           status: Option<string>): (r: Result<GroupRequest>)
    ensures r.Ok? <==>
              && group.Some? && user.Some? && kind.Some? && ParseKind(kind.value).Some?
              && (status.None? || ParseRequestStatus(status.value).Some?)
    ensures r.Fail? ==> r.error == Thrown
    ensures r.Ok? ==>
              && r.value.group == group.value
              && r.value.user == user.value
              && KindText(r.value.kind) == kind.value
    ensures r.Ok? && status.None? ==> r.value.status == DefaultRequestStatus
    ensures r.Ok? && status.Some? ==> RequestStatusText(r.value.status) == status.value
  {
    var st := if status.None? then Some(DefaultRequestStatus) else ParseRequestStatus(status.value);
    if group.None? || user.None? || kind.None? || ParseKind(kind.value).None? || st.None? then
      Fail(Thrown)
    else
      Ok(GroupRequest(group.value, user.value, ParseKind(kind.value).value, st.value))
  }
}
