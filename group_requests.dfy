/**
 * What each membership request and invite handler does to the database, as functions of the
 * database before the call: who may call it, which error it ends with, and what it writes.
 */
module GroupRequests {
  import opened Wrappers
  import opened ObjectIds
  import opened GroupRequestModel
  import opened Store

  /** Nothing outside the request ledger differs between `s` and `t`. */
  ghost predicate OnlyRequestsDiffer(s: Db, t: Db) {
    t.users == s.users && t.groups == s.groups && t.bugs == s.bugs
  }

  /** The body's `status` of a response: only "accepted" and "rejected" are answers. */
  function Decision(answer: Option<string>): (d: Option<RequestStatus>)
    ensures d == Some(Accepted) <==> answer == Some("accepted")
    ensures d == Some(Rejected) <==> answer == Some("rejected")
    ensures d != Some(Pending)
  {
    if answer == Some(RequestStatusText(Accepted)) then Some(Accepted)
    else if answer == Some(RequestStatusText(Rejected)) then Some(Rejected)
    else None
  }

  /** createGroupRequest: the caller asks to join `groupID`; nothing stops a second identical request. */
  function CreateGroupRequest(s: Db, me: Id, groupID: Option<Id>, newId: Id): (r: Step<Id>)
    requires newId !in s.requests
    ensures r.reply.Fail? <==> me !in s.users || groupID.None? || groupID.value !in s.groups
    ensures r.reply.Fail? ==> r.reply.error == NotFound && r.db == s
    ensures r.reply.Ok? ==>
              && r.reply.value == newId
              && OnlyRequestsDiffer(s, r.db)
              && Inserted(s.requests, r.db.requests, newId, GroupRequest(groupID.value, me, Request, Pending))
  {
    if me !in s.users then Step(s, Fail(NotFound))
    else if groupID.None? || groupID.value !in s.groups then Step(s, Fail(NotFound))
    else
      // the literal kind and status always pass the schema
      var created := NewGroupRequest(groupID, Some(me), Some(KindText(Request)), Some(RequestStatusText(Pending))).value;
      Step(s.(requests := s.requests[newId := created]), Ok(newId))
  }

  /** createGroupInvite: the group's manager invites `userID`, who need not exist. */
  function CreateGroupInvite(s: Db, me: Id, groupID: Option<Id>, userID: Option<Id>, newId: Id): (r: Step<Id>)
    requires newId !in s.requests
    ensures r.reply == Fail(NotFound) <==> me !in s.users || groupID.None? || groupID.value !in s.groups
    ensures r.reply == Fail(Forbidden) <==>
              me in s.users && groupID.Some? && groupID.value in s.groups && s.groups[groupID.value].manager != me
    ensures r.reply.Fail? ==> r.db == s
    ensures r.reply.Ok? ==>
              && r.reply.value == newId && userID.Some?
              && s.groups[groupID.value].manager == me
              && OnlyRequestsDiffer(s, r.db)
              && Inserted(s.requests, r.db.requests, newId, GroupRequest(groupID.value, userID.value, Invite, Pending))
    ensures (me in s.users && groupID.Some? && groupID.value in s.groups
             && s.groups[groupID.value].manager == me) ==>
              && (userID.Some? ==> r.reply == Ok(newId))
              && (userID.None? ==> r == Step(s, Fail(Thrown)))
    ensures r.reply == Fail(Thrown) ==> userID.None?
  {
    if me !in s.users then Step(s, Fail(NotFound))
    else if groupID.None? || groupID.value !in s.groups then Step(s, Fail(NotFound))
    else if me != s.groups[groupID.value].manager then Step(s, Fail(Forbidden))
    else
      var created := NewGroupRequest(groupID, userID, Some(KindText(Invite)), Some(RequestStatusText(Pending)));
      if created.Fail? then Step(s, Fail(created.error))
      else Step(s.(requests := s.requests[newId := created.value]), Ok(newId))
  }

  /** getGroupRequests: the manager sees every record of the group, of either kind and any status. */
  function GetGroupRequests(s: Db, me: Id, groupID: Option<Id>): (r: Result<map<Id, GroupRequest>>)
    ensures r.Ok? <==>
              me in s.users && groupID.Some? && groupID.value in s.groups && s.groups[groupID.value].manager == me
    ensures r == Fail(NotFound) <==> me !in s.users || groupID.None? || groupID.value !in s.groups
    ensures r == Fail(Forbidden) <==>
              me in s.users && groupID.Some? && groupID.value in s.groups && s.groups[groupID.value].manager != me
    ensures r.Ok? ==> forall k :: k in r.value <==> k in s.requests && s.requests[k].group == groupID.value
    ensures r.Ok? ==> forall k :: k in r.value ==> r.value[k] == s.requests[k]
  {
    if me !in s.users then Fail(NotFound)
    else if groupID.None? || groupID.value !in s.groups then Fail(NotFound)
    else if me != s.groups[groupID.value].manager then Fail(Forbidden)
    else Ok(map k | k in s.requests && s.requests[k].group == groupID.value :: s.requests[k])
  }

  /** getGroupsInvites: every invite addressed to the caller, whatever its status. */
  function GetGroupsInvites(s: Db, me: Id): (r: Result<map<Id, GroupRequest>>)
    ensures r.Fail? <==> me !in s.users
    ensures r.Fail? ==> r.error == NotFound
    ensures r.Ok? ==> forall k :: k in r.value <==> k in s.requests && s.requests[k].user == me && s.requests[k].kind == Invite
    ensures r.Ok? ==> forall k :: k in r.value ==> r.value[k] == s.requests[k]
  {
    if me !in s.users then Fail(NotFound)
    else Ok(map k | k in s.requests && s.requests[k].user == me && s.requests[k].kind == Invite :: s.requests[k])
  }

  /**
   * responseGroupInvite: the invited user accepts or rejects a pending invite. On acceptance the
   * new status is saved before the user is looked up, so a missing user still leaves it accepted.
   */
  function ResponseGroupInvite(s: Db, me: Id, id: Id, answer: Option<string>): (r: Step<()>)
    ensures id !in s.requests ==> r == Step(s, Fail(NotFound))
    ensures id in s.requests && s.requests[id].status != Pending ==> r == Step(s, Fail(BadRequest))
    ensures id in s.requests && s.requests[id].status == Pending && s.requests[id].kind != Invite ==>
              r == Step(s, Fail(BadRequest))
    ensures (id in s.requests && s.requests[id].status == Pending && s.requests[id].kind == Invite
             && s.requests[id].user != me) ==> r == Step(s, Fail(Forbidden))
    ensures (id in s.requests && s.requests[id].status == Pending && s.requests[id].kind == Invite
             && s.requests[id].user == me && Decision(answer).None?) ==> r == Step(s, Fail(BadRequest))
    ensures r.db.groups == s.groups && r.db.bugs == s.bugs
    ensures r.db != s || r.reply.Ok? ==>
              && id in s.requests
              && s.requests[id] == GroupRequest(s.requests[id].group, me, Invite, Pending)
              && Decision(answer).Some?
              && Replaced(s.requests, r.db.requests, id, s.requests[id].(status := Decision(answer).value))
    ensures r.reply.Ok? && Decision(answer) == Some(Rejected) ==> r.db.users == s.users
    ensures r.reply.Ok? && Decision(answer) == Some(Accepted) ==>
              me in s.users && Replaced(s.users, r.db.users, me, s.users[me].(groups := s.users[me].groups + [s.requests[id].group]))
    ensures r.reply.Fail? && r.db != s ==>
              r.reply.error == NotFound && Decision(answer) == Some(Accepted) && me !in s.users && r.db.users == s.users
    ensures (id in s.requests && s.requests[id] == GroupRequest(s.requests[id].group, me, Invite, Pending)
             && Decision(answer).Some? && (Decision(answer) == Some(Rejected) || me in s.users)) ==> r.reply.Ok?
    ensures (id in s.requests && s.requests[id] == GroupRequest(s.requests[id].group, me, Invite, Pending)
             && Decision(answer) == Some(Accepted) && me !in s.users) ==>
              r == Step(s.(requests := s.requests[id := s.requests[id].(status := Accepted)]), Fail(NotFound))
  {
    if id !in s.requests then Step(s, Fail(NotFound))
    else
      var invite := s.requests[id];
      if invite.status != Pending then Step(s, Fail(BadRequest))
      else if invite.kind != Invite then Step(s, Fail(BadRequest))
      else if me != invite.user then Step(s, Fail(Forbidden))
      else if Decision(answer).None? then Step(s, Fail(BadRequest))
      else if Decision(answer) == Some(Rejected) then
        Step(s.(requests := s.requests[id := invite.(status := Rejected)]), Ok(()))
      else
        var saved := s.(requests := s.requests[id := invite.(status := Accepted)]);
        if invite.user !in saved.users then Step(saved, Fail(NotFound))
        else
          var user := saved.users[invite.user];
          Step(saved.(users := saved.users[invite.user := user.(groups := user.groups + [invite.group])]), Ok(()))
  }

  /**
   * An acceptance by an invited user who has no user document answers 404, yet the invite stays
   * accepted: it can never be answered again.
   */
  lemma AcceptedInviteWithoutUser(s: Db, me: Id, id: Id, answer: Option<string>)
    requires id in s.requests && s.requests[id] == GroupRequest(s.requests[id].group, me, Invite, Pending)
    requires me !in s.users
    ensures var r := ResponseGroupInvite(s, me, id, Some("accepted"));
            && r.reply == Fail(NotFound)
            && id in r.db.requests && r.db.requests[id].status == Accepted
            && ResponseGroupInvite(r.db, me, id, answer) == Step(r.db, Fail(BadRequest))
  {
  }

  /**
   * responseGroupRequest: the manager of the requested group accepts or rejects a pending request.
   * Acceptance adds the group to the requesting user, not to the manager, and as with invites the
   * status is saved before that user is looked up.
   */
  function ResponseGroupRequest(s: Db, me: Id, id: Id, answer: Option<string>): (r: Step<()>)
    ensures id !in s.requests ==> r == Step(s, Fail(NotFound))
    ensures id in s.requests && s.requests[id].status != Pending ==> r == Step(s, Fail(BadRequest))
    ensures id in s.requests && s.requests[id].status == Pending && s.requests[id].kind != Request ==>
              r == Step(s, Fail(BadRequest))
    ensures (id in s.requests && s.requests[id].status == Pending && s.requests[id].kind == Request
             && s.requests[id].group !in s.groups) ==> r == Step(s, Fail(NotFound))
    ensures (id in s.requests && s.requests[id].status == Pending && s.requests[id].kind == Request
             && s.requests[id].group in s.groups && s.groups[s.requests[id].group].manager != me) ==>
              r == Step(s, Fail(Forbidden))
    ensures (id in s.requests && s.requests[id].status == Pending && s.requests[id].kind == Request
             && s.requests[id].group in s.groups && s.groups[s.requests[id].group].manager == me
             && Decision(answer).None?) ==> r == Step(s, Fail(BadRequest))
    ensures r.db.groups == s.groups && r.db.bugs == s.bugs
    ensures r.db != s || r.reply.Ok? ==>
              && id in s.requests
              && s.requests[id].kind == Request && s.requests[id].status == Pending
              && s.requests[id].group in s.groups && s.groups[s.requests[id].group].manager == me
              && Decision(answer).Some?
              && Replaced(s.requests, r.db.requests, id, s.requests[id].(status := Decision(answer).value))
    ensures r.reply.Ok? && Decision(answer) == Some(Rejected) ==> r.db.users == s.users
    ensures r.reply.Ok? && Decision(answer) == Some(Accepted) ==>
              var u := s.requests[id].user;
              u in s.users && Replaced(s.users, r.db.users, u, s.users[u].(groups := s.users[u].groups + [s.requests[id].group]))
    ensures r.reply.Fail? && r.db != s ==>
              && r.reply.error == NotFound && Decision(answer) == Some(Accepted)
              && s.requests[id].user !in s.users && r.db.users == s.users
    ensures (id in s.requests && s.requests[id].kind == Request && s.requests[id].status == Pending
             && s.requests[id].group in s.groups && s.groups[s.requests[id].group].manager == me
             && Decision(answer).Some? && (Decision(answer) == Some(Rejected) || s.requests[id].user in s.users)) ==>
              r.reply.Ok?
    ensures (id in s.requests && s.requests[id].kind == Request && s.requests[id].status == Pending
             && s.requests[id].group in s.groups && s.groups[s.requests[id].group].manager == me
             && Decision(answer) == Some(Accepted) && s.requests[id].user !in s.users) ==>
              r == Step(s.(requests := s.requests[id := s.requests[id].(status := Accepted)]), Fail(NotFound))
  {
    if id !in s.requests then Step(s, Fail(NotFound))
    else
      var request := s.requests[id];
      if request.status != Pending then Step(s, Fail(BadRequest))
      else if request.kind != Request then Step(s, Fail(BadRequest))
      else if request.group !in s.groups then Step(s, Fail(NotFound))
      else if me != s.groups[request.group].manager then Step(s, Fail(Forbidden))
      else if Decision(answer).None? then Step(s, Fail(BadRequest))
      else if Decision(answer) == Some(Rejected) then
        Step(s.(requests := s.requests[id := request.(status := Rejected)]), Ok(()))
      else
        var saved := s.(requests := s.requests[id := request.(status := Accepted)]);
        if request.user !in saved.users then Step(saved, Fail(NotFound))
        else
          var user := saved.users[request.user];
          Step(saved.(users := saved.users[request.user := user.(groups := user.groups + [request.group])]), Ok(()))
  }

  /** The caller is not the one allowed to delete `request`: its user for a request, its group's manager for an invite. */
  ghost predicate DeniedDeletion(s: Db, me: Id, request: GroupRequest) {
    match request.kind
    case Request => request.user != me
    case Invite => request.group in s.groups && s.groups[request.group].manager != me
  }

  /**
   * deleteGroupRequest: a request may be withdrawn only by the user who made it, an invite only by
   * the manager of its group. The status is not consulted.
   */
  function DeleteGroupRequest(s: Db, me: Id, id: Id): (r: Step<()>)
    ensures r.reply.Fail? ==> r.db == s
    ensures r.reply.Ok? <==>
              && id in s.requests && me in s.users
              && (s.requests[id].kind == Request ==> s.requests[id].user == me)
              && (s.requests[id].kind == Invite ==>
                    s.requests[id].group in s.groups && s.groups[s.requests[id].group].manager == me)
    ensures r.reply == Fail(Forbidden) <==> id in s.requests && me in s.users && DeniedDeletion(s, me, s.requests[id])
    ensures r.reply == Fail(NotFound) <==>
              || id !in s.requests || me !in s.users
              || (s.requests[id].kind == Invite && s.requests[id].group !in s.groups)
    ensures r.reply.Ok? ==> OnlyRequestsDiffer(s, r.db) && Removed(s.requests, r.db.requests, id)
  {
    if id !in s.requests then Step(s, Fail(NotFound))
    else if me !in s.users then Step(s, Fail(NotFound))
    else
      var request := s.requests[id];
      if request.kind == Request && request.user != me then Step(s, Fail(Forbidden))
      else if request.kind == Invite && request.group !in s.groups then Step(s, Fail(NotFound))
      else if request.kind == Invite && s.groups[request.group].manager != me then Step(s, Fail(Forbidden))
      else Step(s.(requests := s.requests - {id}), Ok(()))
  }

  /** Whether a record may be deleted does not depend on its status. */
  lemma DeleteIgnoresStatus(s: Db, me: Id, id: Id, st: RequestStatus)
    requires id in s.requests
    ensures var t := s.(requests := s.requests[id := s.requests[id].(status := st)]);
            DeleteGroupRequest(t, me, id).reply == DeleteGroupRequest(s, me, id).reply
  {
  }
}
