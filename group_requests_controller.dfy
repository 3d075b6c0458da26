/**
 * The membership request handlers that write: each loads the documents it needs, checks them in
 * the order the source does, assigns fields on the loaded record and saves it back.
 */
module GroupRequestsController {
  import opened Wrappers
  import opened ObjectIds
  import opened GroupRequestModel
  import opened Store
  import GroupRequests

  method CreateGroupRequest(db: Database, me: Id, groupID: Option<Id>, newId: Id) returns (r: Result<Id>)
    requires newId !in db.requests
    modifies db
    ensures db.State() == GroupRequests.CreateGroupRequest(old(db.State()), me, groupID, newId).db
    ensures r == GroupRequests.CreateGroupRequest(old(db.State()), me, groupID, newId).reply
  {
    if me !in db.users {
      return Fail(NotFound);
    }
    if groupID.None? || groupID.value !in db.groups {
      return Fail(NotFound);
    }
    var created := NewGroupRequest(groupID, Some(me), Some(KindText(Request)), Some(RequestStatusText(Pending))).value;
    db.requests := db.requests[newId := created];
    return Ok(newId);
  }

  method CreateGroupInvite(db: Database, me: Id, groupID: Option<Id>, userID: Option<Id>, newId: Id)
    returns (r: Result<Id>)
    requires newId !in db.requests
    modifies db
    ensures db.State() == GroupRequests.CreateGroupInvite(old(db.State()), me, groupID, userID, newId).db
    ensures r == GroupRequests.CreateGroupInvite(old(db.State()), me, groupID, userID, newId).reply
  {
    if me !in db.users {
      return Fail(NotFound);
    }
    if groupID.None? || groupID.value !in db.groups {
      return Fail(NotFound);
    }
    var group := db.groups[groupID.value];
    if me != group.manager {
      return Fail(Forbidden);
    }
    var created := NewGroupRequest(groupID, userID, Some(KindText(Invite)), Some(RequestStatusText(Pending)));
    if created.Fail? {
      return Fail(created.error);
    }
    db.requests := db.requests[newId := created.value];
    return Ok(newId);
  }

  method ResponseGroupInvite(db: Database, me: Id, id: Id, answer: Option<string>) returns (r: Result<()>)
    modifies db
    ensures db.State() == GroupRequests.ResponseGroupInvite(old(db.State()), me, id, answer).db
    ensures r == GroupRequests.ResponseGroupInvite(old(db.State()), me, id, answer).reply
  {
    if id !in db.requests {
      return Fail(NotFound);
    }
    var invite := db.requests[id];
    if invite.status != Pending {
      return Fail(BadRequest);
    }
    if invite.kind != Invite {
      return Fail(BadRequest);
    }
    if me != invite.user {
      return Fail(Forbidden);
    }
    if answer != Some(RequestStatusText(Accepted)) && answer != Some(RequestStatusText(Rejected)) {
      return Fail(BadRequest);
    }
    if answer == Some(RequestStatusText(Rejected)) {
      invite := invite.(status := Rejected);
      db.requests := db.requests[id := invite];
      return Ok(());
    }
    invite := invite.(status := Accepted);
    db.requests := db.requests[id := invite];
    if invite.user !in db.users {
      return Fail(NotFound);
    }
    var user := db.users[invite.user];
    user := user.(groups := user.groups + [invite.group]);
    db.users := db.users[invite.user := user];
    return Ok(());
  }

  method ResponseGroupRequest(db: Database, me: Id, id: Id, answer: Option<string>) returns (r: Result<()>)
    modifies db
    ensures db.State() == GroupRequests.ResponseGroupRequest(old(db.State()), me, id, answer).db
    ensures r == GroupRequests.ResponseGroupRequest(old(db.State()), me, id, answer).reply
  {
    if id !in db.requests {
      return Fail(NotFound);
    }
    var request := db.requests[id];
    if request.status != Pending {
      return Fail(BadRequest);
    }
    if request.kind != Request {
      return Fail(BadRequest);
    }
    if request.group !in db.groups {
      return Fail(NotFound);
    }
    var group := db.groups[request.group];
    if me != group.manager {
      return Fail(Forbidden);
    }
    if answer != Some(RequestStatusText(Accepted)) && answer != Some(RequestStatusText(Rejected)) {
      return Fail(BadRequest);
    }
    if answer == Some(RequestStatusText(Rejected)) {
      request := request.(status := Rejected);
      db.requests := db.requests[id := request];
      return Ok(());
    }
    request := request.(status := Accepted);
    db.requests := db.requests[id := request];
    if request.user !in db.users {
      return Fail(NotFound);
    }
    var user := db.users[request.user];
    user := user.(groups := user.groups + [request.group]);
    db.users := db.users[request.user := user];
    return Ok(());
  }

  method DeleteGroupRequest(db: Database, me: Id, id: Id) returns (r: Result<()>)
    modifies db
    ensures db.State() == GroupRequests.DeleteGroupRequest(old(db.State()), me, id).db
    ensures r == GroupRequests.DeleteGroupRequest(old(db.State()), me, id).reply
  {
    if id !in db.requests {
      return Fail(NotFound);
    }
    var request := db.requests[id];
    if me !in db.users {
      return Fail(NotFound);
    }
    if request.kind == Request && request.user != me {
      return Fail(Forbidden);
    }
    if request.kind == Invite {
      if request.group !in db.groups {
        return Fail(NotFound);
      }
      if db.groups[request.group].manager != me {
        return Fail(Forbidden);
      }
    }
    db.requests := db.requests - {id};
    return Ok(());
  }
}
