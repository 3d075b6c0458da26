/**
 * The handlers that write, taken together: one call is one request handled to the end. The
 * lemmas here are about every call, and about runs of calls.
 */
module Server {
  import opened Wrappers
  import opened ObjectIds
  import opened BugModel
  import opened GroupRequestModel
  import opened Store
  import GroupRequests
  import Bugs
  import Groups
  import Users

  /** A request to a handler that can write, with what the request carries; `newId` is the id the database gives a created document. */
  datatype Call =
    | CreateGroupRequest(me: Id, groupID: Option<Id>, newId: Id)
    | CreateGroupInvite(me: Id, groupID: Option<Id>, userID: Option<Id>, newId: Id)
    | ResponseGroupInvite(me: Id, id: Id, answer: Option<string>)
    | ResponseGroupRequest(me: Id, id: Id, answer: Option<string>)
    | DeleteGroupRequest(me: Id, id: Id)
    | CreateBug(me: Id, body: Bugs.BugBody, newId: Id)
    | UpdateBug(me: Id, id: Id, bugPatch: Bugs.BugPatch)
    | TakeBug(me: Id, id: Id)
    | DeleteBug(me: Id, id: Id)
    | CreateGroup(me: Id, title: string, description: string, newId: Id)
    | UpdateGroup(id: Id, newTitle: Option<string>, newDescription: Option<string>)
    | DeleteGroup(me: Id, id: Id)
    | UserRegister(name: string, email: string, password: string, newId: Id)
    | UpdateProfile(me: Id, profilePatch: Users.ProfilePatch)

  /** The id the database assigns to a created document is not in use. */
  predicate Fresh(s: Db, c: Call) {
    match c
    case CreateGroupRequest(_, _, newId) => newId !in s.requests
    case CreateGroupInvite(_, _, _, newId) => newId !in s.requests
    case CreateBug(_, _, newId) => newId !in s.bugs
    case CreateGroup(_, _, _, newId) => newId !in s.groups
    case UserRegister(_, _, _, newId) => newId !in s.users
    case _ => true
  }

  /** The database after handling `c`. updateGroup runs as written, with `req.user_id` unset. */
  function Apply(s: Db, c: Call): Db
    requires Fresh(s, c)
  {
    match c
    case CreateGroupRequest(me, groupID, newId) => GroupRequests.CreateGroupRequest(s, me, groupID, newId).db
    case CreateGroupInvite(me, groupID, userID, newId) => GroupRequests.CreateGroupInvite(s, me, groupID, userID, newId).db
    case ResponseGroupInvite(me, id, answer) => GroupRequests.ResponseGroupInvite(s, me, id, answer).db
    case ResponseGroupRequest(me, id, answer) => GroupRequests.ResponseGroupRequest(s, me, id, answer).db
    case DeleteGroupRequest(me, id) => GroupRequests.DeleteGroupRequest(s, me, id).db
    case CreateBug(me, body, newId) => Bugs.CreateBug(s, me, body, newId).db
    case UpdateBug(me, id, patch) => Bugs.UpdateBug(s, me, id, patch).db
    case TakeBug(me, id) => Bugs.TakeBug(s, me, id).db
    case DeleteBug(me, id) => Bugs.DeleteBug(s, me, id).db
    case CreateGroup(me, title, description, newId) => Groups.CreateGroup(s, me, title, description, newId).db
    case UpdateGroup(id, title, description) => Groups.UpdateGroup(s, Groups.RequestUserIdField, id, title, description).db
    case DeleteGroup(me, id) => Groups.DeleteGroup(s, me, id).db
    case UserRegister(name, email, password, newId) => Users.Register(s, name, email, password, newId).db
    case UpdateProfile(me, patch) => Users.UpdateProfile(s, me, patch).db
  }

  // ---------------------------------------------------------------------------------------------
  // The request ledger: pending -> accepted | rejected, nothing else

  /** A record kept between `s` and `t` has the same group, user and kind, and its status changed only if it was pending. */
  ghost predicate RequestHistory(s: Db, t: Db) {
    forall id :: id in s.requests && id in t.requests ==>
      && t.requests[id].group == s.requests[id].group
      && t.requests[id].user == s.requests[id].user
      && t.requests[id].kind == s.requests[id].kind
      && (t.requests[id].status == s.requests[id].status
          || (s.requests[id].status == Pending && t.requests[id].status != Pending))
  }

  lemma ApplyKeepsRequestHistory(s: Db, c: Call)
    requires Fresh(s, c)
    ensures RequestHistory(s, Apply(s, c))
  {
  }

  /** The counterpart of a record: the invited user for an invite, the group's manager for a request. */
  ghost predicate IsCounterpart(s: Db, me: Id, request: GroupRequest) {
    match request.kind
    case Invite => me == request.user
    case Request => request.group in s.groups && s.groups[request.group].manager == me
  }

  /** Only the counterpart's response changes a record's status, and only the matching response handler. */
  lemma OnlyCounterpartResolves(s: Db, c: Call, id: Id)
    requires Fresh(s, c)
    requires id in s.requests && id in Apply(s, c).requests
    requires Apply(s, c).requests[id].status != s.requests[id].status
    ensures s.requests[id].status == Pending
    ensures s.requests[id].kind == Invite ==> c.ResponseGroupInvite? && c.id == id && IsCounterpart(s, c.me, s.requests[id])
    ensures s.requests[id].kind == Request ==> c.ResponseGroupRequest? && c.id == id && IsCounterpart(s, c.me, s.requests[id])
  {
  }

  // ---------------------------------------------------------------------------------------------
  // Bugs: who created a bug and who took it never change

  /** A bug kept between `s` and `t` keeps its creator, and once taken keeps its taker. */
  ghost predicate BugOwnershipKept(s: Db, t: Db) {
    forall b :: b in s.bugs && b in t.bugs ==>
      && t.bugs[b].createdBy == s.bugs[b].createdBy
      && (s.bugs[b].takedBy != NoOne ==> t.bugs[b].takedBy == s.bugs[b].takedBy)
  }

  lemma ApplyKeepsBugOwnership(s: Db, c: Call)
    requires Fresh(s, c)
    ensures BugOwnershipKept(s, Apply(s, c))
  {
  }

  // ---------------------------------------------------------------------------------------------
  // Invariants of the whole database

  /** Every group's manager is a user who belongs to it. */
  ghost predicate ManagersAreMembers(s: Db) {
    forall g :: g in s.groups ==> IsMember(s, s.groups[g].manager, g)
  }

  /** A step that keeps the groups and only lets users gain groups keeps managers members. */
  lemma MembershipGrowthKeepsManagersMembers(s: Db, t: Db)
    requires ManagersAreMembers(s)
    requires t.groups == s.groups
    requires forall u :: u in s.users ==> u in t.users && forall g :: g in s.users[u].groups ==> g in t.users[u].groups
    ensures ManagersAreMembers(t)
  {
    forall g | g in t.groups
      ensures IsMember(t, t.groups[g].manager, g)
    {
      assert IsMember(s, s.groups[g].manager, g);
    }
  }

  lemma CreateGroupKeepsManagersMembers(s: Db, me: Id, title: string, description: string, newId: Id)
    requires newId !in s.groups
    requires ManagersAreMembers(s)
    ensures ManagersAreMembers(Groups.CreateGroup(s, me, title, description, newId).db)
  {
    var t := Groups.CreateGroup(s, me, title, description, newId).db;
    forall g | g in t.groups
      ensures IsMember(t, t.groups[g].manager, g)
    {
      if g != newId {
        assert IsMember(s, s.groups[g].manager, g);
      }
    }
  }

  lemma DeleteGroupKeepsManagersMembers(s: Db, me: Id, id: Id)
    requires ManagersAreMembers(s)
    ensures ManagersAreMembers(Groups.DeleteGroup(s, me, id).db)
  {
    var r := Groups.DeleteGroup(s, me, id);
    if r.reply.Ok? {
      var t := r.db;
      forall g | g in t.groups
        ensures IsMember(t, t.groups[g].manager, g)
      {
        var m := s.groups[g].manager;
        assert IsMember(s, m, g);
        if m == me {
          assert multiset(t.users[me].groups)[g] == multiset(s.users[me].groups)[g];
        }
      }
    }
  }

  lemma ApplyKeepsManagersMembers(s: Db, c: Call)
    requires Fresh(s, c)
    requires ManagersAreMembers(s)
    ensures ManagersAreMembers(Apply(s, c))
  {
    match c
    case CreateGroup(me, title, description, newId) =>
      CreateGroupKeepsManagersMembers(s, me, title, description, newId);
    case DeleteGroup(me, id) =>
      DeleteGroupKeepsManagersMembers(s, me, id);
    case ResponseGroupInvite(_, _, _) =>
      MembershipGrowthKeepsManagersMembers(s, Apply(s, c));
    case ResponseGroupRequest(_, _, _) =>
      MembershipGrowthKeepsManagersMembers(s, Apply(s, c));
    case UserRegister(_, _, _, _) =>
      MembershipGrowthKeepsManagersMembers(s, Apply(s, c));
    case UpdateProfile(_, _) =>
      MembershipGrowthKeepsManagersMembers(s, Apply(s, c));
    case _ =>
  }

  /** Every bug's creator is a user. */
  ghost predicate CreatorsAreUsers(s: Db) {
    forall b :: b in s.bugs ==> s.bugs[b].createdBy in s.users
  }

  lemma ApplyKeepsCreatorsAreUsers(s: Db, c: Call)
    requires Fresh(s, c)
    requires CreatorsAreUsers(s)
    ensures CreatorsAreUsers(Apply(s, c))
  {
  }

  /** Every call but a profile update keeps emails unique; `Users.UpdateProfileCanDuplicateEmail` shows that one need not. */
  lemma ApplyKeepsUniqueEmails(s: Db, c: Call)
    requires Fresh(s, c)
    requires !c.UpdateProfile?
    requires Users.UniqueEmails(s)
    ensures Users.UniqueEmails(Apply(s, c))
  {
  }

  // ---------------------------------------------------------------------------------------------
  // Runs of calls

  /** Each call of `calls`, made in turn from `s`, gets fresh ids for what it creates. */
  ghost predicate Runnable(s: Db, calls: seq<Call>)
    decreases |calls|
  {
    calls == [] || (Fresh(s, calls[0]) && Runnable(Apply(s, calls[0]), calls[1..]))
  }

  ghost function Run(s: Db, calls: seq<Call>): Db
    requires Runnable(s, calls)
    decreases |calls|
  {
    if calls == [] then s else Run(Apply(s, calls[0]), calls[1..])
  }

  lemma {:induction false} RunKeepsManagersMembers(s: Db, calls: seq<Call>)
    requires Runnable(s, calls)
    requires ManagersAreMembers(s)
    ensures ManagersAreMembers(Run(s, calls))
    decreases |calls|
  {
    if calls != [] {
      ApplyKeepsManagersMembers(s, calls[0]);
      RunKeepsManagersMembers(Apply(s, calls[0]), calls[1..]);
    }
  }

  lemma {:induction false} RunKeepsCreatorsAreUsers(s: Db, calls: seq<Call>)
    requires Runnable(s, calls)
    requires CreatorsAreUsers(s)
    ensures CreatorsAreUsers(Run(s, calls))
    decreases |calls|
  {
    if calls != [] {
      ApplyKeepsCreatorsAreUsers(s, calls[0]);
      RunKeepsCreatorsAreUsers(Apply(s, calls[0]), calls[1..]);
    }
  }

  /**
   * User `a` creates group `g`, user `b` asks to join it and `a` accepts: `b` then belongs to `g`,
   * and so does `a`.
   */
  lemma JoinByRequest(s: Db, a: Id, b: Id, g: Id, req: Id, title: string, description: string)
    requires a in s.users && b in s.users
    requires g !in s.groups && req !in s.requests
    ensures var calls := [CreateGroup(a, title, description, g), CreateGroupRequest(b, Some(g), req),
                          ResponseGroupRequest(a, req, Some("accepted"))];
            && Runnable(s, calls)
            && IsMember(Run(s, calls), b, g)
            && IsMember(Run(s, calls), a, g)
  {
    var calls := [CreateGroup(a, title, description, g), CreateGroupRequest(b, Some(g), req),
                  ResponseGroupRequest(a, req, Some("accepted"))];
    var s1 := Apply(s, calls[0]);
    var s2 := Apply(s1, calls[1]);
    var s3 := Apply(s2, calls[2]);
    assert s1.groups[g].manager == a && IsMember(s1, a, g);
    assert s2.requests[req] == GroupRequest(g, b, Request, Pending);
    assert GroupRequests.ResponseGroupRequest(s2, a, req, Some("accepted")).reply.Ok?;
    assert IsMember(s3, b, g) && IsMember(s3, a, g);
    // Unroll Run one call at a time, naming each suffix of the trace.
    var t1, t2 := calls[1..], calls[2..];
    assert t1[1..] == t2 && t2[1..] == [] && t1[0] == calls[1] && t2[0] == calls[2];
    assert Fresh(s1, calls[1]) && Fresh(s2, calls[2]);
    assert Runnable(s3, t2[1..]) && Run(s3, t2[1..]) == s3;
    assert Run(s2, t2) == Run(Apply(s2, t2[0]), t2[1..]);
    assert Runnable(s2, t2) && Run(s2, t2) == s3;
    assert Runnable(s1, t1) && Run(s1, t1) == s3;
    assert Runnable(s, calls) && Run(s, calls) == s3;
  }
}
