/** What each group handler does to the database, as functions of the database before the call. */
module Groups {
  import opened Wrappers
  import opened ObjectIds
  import opened Store

  /** Mongoose's `array.remove(x)`: every occurrence of `x` goes, everything else stays as often as it was. */
  function RemoveAll(xs: seq<Id>, x: Id): (r: seq<Id>)
    ensures x !in r
    ensures forall y :: y != x ==> multiset(r)[y] == multiset(xs)[y]
    ensures x !in xs ==> r == xs
  {
    if xs == [] then []
    else
      assert xs == [xs[0]] + xs[1..];
      if xs[0] == x then RemoveAll(xs[1..], x) else [xs[0]] + RemoveAll(xs[1..], x)
  }

  /** `remove` works element by element, so the ids that remain keep their order. */
  lemma {:induction false} RemoveAllAppend(a: seq<Id>, b: seq<Id>, x: Id)
    ensures RemoveAll(a + b, x) == RemoveAll(a, x) + RemoveAll(b, x)
  {
    if a == [] {
      assert a + b == b;
    } else {
      assert (a + b)[0] == a[0] && (a + b)[1..] == a[1..] + b;
      RemoveAllAppend(a[1..], b, x);
    }
  }

  /** createGroup: the caller becomes the manager and a member of the new group. */
  function CreateGroup(s: Db, me: Id, title: string, description: string, newId: Id): (r: Step<Id>)
    requires newId !in s.groups
    ensures me !in s.users ==> r == Step(s, Fail(NotFound))
    ensures me in s.users ==> r.reply == Ok(newId)
    ensures r.reply.Ok? ==>
              && me in s.users
              && Inserted(s.groups, r.db.groups, newId, Group(title, description, me))
              && Replaced(s.users, r.db.users, me, s.users[me].(groups := s.users[me].groups + [newId]))
              && r.db.bugs == s.bugs && r.db.requests == s.requests
    ensures r.reply.Ok? ==> IsMember(r.db, me, newId)
  {
    if me !in s.users then Step(s, Fail(NotFound))
    else
      var created := s.(groups := s.groups[newId := Group(title, description, me)]);
      var user := created.users[me];
      Step(created.(users := created.users[me := user.(groups := user.groups + [newId])]), Ok(newId))
  }

  /** `User.find({ groups: id })`: the users whose `groups` contain the id. */
  function Members(s: Db, g: Id): (m: set<Id>)
    ensures forall u :: u in m <==> IsMember(s, u, g)
  {
    set u | u in s.users && g in s.users[u].groups
  }

  /** What getGroup answers: the title, the manager and the members. */
  datatype GroupView = GroupView(title: string, manager: Id, members: set<Id>)

  /** getGroup: any authenticated caller may read it; members are derived from the users, not stored. */
  function GetGroup(s: Db, id: Id): (r: Result<GroupView>)
    ensures r.Fail? <==> id !in s.groups
    ensures r.Fail? ==> r.error == NotFound
    ensures r.Ok? ==>
              && r.value.title == s.groups[id].title
              && r.value.manager == s.groups[id].manager
              && forall u :: u in r.value.members <==> IsMember(s, u, id)
  {
    var members := Members(s, id);
    if id !in s.groups then Fail(NotFound)
    else Ok(GroupView(s.groups[id].title, s.groups[id].manager, members))
  }

  /** updateGroup's merge: title and description take the supplied value when it is truthy. */
  function Merged(g: Group, title: Option<string>, description: Option<string>): (g': Group)
    ensures g'.manager == g.manager
    ensures Truthy(title) ==> g'.title == title.value
    ensures !Truthy(title) ==> g'.title == g.title
    ensures Truthy(description) ==> g'.description == description.value
    ensures !Truthy(description) ==> g'.description == g.description
  {
    g.(title := OrElse(title, g.title), description := OrElse(description, g.description))
  }

  /**
   * The `req.user_id` that updateGroup compares the manager with. The authentication middleware
   * sets `req.user`, never `req.user_id`, so in every request the field is undefined.
   */
  const RequestUserIdField: Option<string> := None

  /** `manager.toString() === field`: an undefined field equals no id. */
  predicate Equals(field: Option<string>, manager: Id) {
    field.Some? && field.value == manager
  }

  /**
   * updateGroup as written: the manager is compared with `userIdField`, the request's
   * `req.user_id`, and a mismatch is answered with 401.
   */
  function UpdateGroup(s: Db, userIdField: Option<string>, id: Id, title: Option<string>, description: Option<string>)
    : (r: Step<Group>)
    ensures id !in s.groups ==> r == Step(s, Fail(NotFound))
    ensures id in s.groups && !Equals(userIdField, s.groups[id].manager) ==> r == Step(s, Fail(Unauthorized))
    ensures id in s.groups && Equals(userIdField, s.groups[id].manager) ==> r.reply.Ok?
    ensures r.reply.Fail? ==> r.db == s
    ensures r.reply.Ok? ==>
              && id in s.groups && Equals(userIdField, s.groups[id].manager)
              && r.reply.value == Merged(s.groups[id], title, description)
              && Replaced(s.groups, r.db.groups, id, r.reply.value)
              && r.db.users == s.users && r.db.bugs == s.bugs && r.db.requests == s.requests
  {
    if id !in s.groups then Step(s, Fail(NotFound))
    else
      var group := s.groups[id];
      if !Equals(userIdField, group.manager) then Step(s, Fail(Unauthorized))
      else
        var updated := Merged(group, title, description);
        Step(s.(groups := s.groups[id := updated]), Ok(updated))
  }

  /** As written, every updateGroup on an existing group is refused, its manager's included, and changes nothing. */
  lemma UpdateGroupAlwaysRejected(s: Db, id: Id, title: Option<string>, description: Option<string>)
    requires id in s.groups
    ensures UpdateGroup(s, RequestUserIdField, id, title, description) == Step(s, Fail(Unauthorized))
  {
  }

  /** updateGroup as evidently intended: the manager is compared with the caller's id. */
  function UpdateGroupIntended(s: Db, me: Id, id: Id, title: Option<string>, description: Option<string>)
    : (r: Step<Group>)
    ensures id !in s.groups ==> r == Step(s, Fail(NotFound))
    ensures id in s.groups && s.groups[id].manager != me ==> r == Step(s, Fail(Unauthorized))
    ensures id in s.groups && s.groups[id].manager == me ==>
              && r.reply == Ok(Merged(s.groups[id], title, description))
              && Replaced(s.groups, r.db.groups, id, r.reply.value)
              && r.db.users == s.users && r.db.bugs == s.bugs && r.db.requests == s.requests
  {
    UpdateGroup(s, Some(me), id, title, description)
  }

  /**
   * deleteGroup: only the manager may delete the group. The group leaves the manager's `groups`
   * and the collection; every other user keeps whatever reference to it they had.
   */
  function DeleteGroup(s: Db, me: Id, id: Id): (r: Step<()>)
    ensures id !in s.groups ==> r == Step(s, Fail(NotFound))
    ensures id in s.groups && me !in s.users ==> r == Step(s, Fail(NotFound))
    ensures id in s.groups && me in s.users && s.groups[id].manager != me ==> r == Step(s, Fail(Unauthorized))
    ensures id in s.groups && me in s.users && s.groups[id].manager == me ==> r.reply.Ok?
    ensures r.reply.Fail? ==> r.db == s
    ensures r.reply.Ok? ==>
              && me in s.users && id in s.groups && s.groups[id].manager == me
              && Removed(s.groups, r.db.groups, id)
              && Replaced(s.users, r.db.users, me, s.users[me].(groups := RemoveAll(s.users[me].groups, id)))
              && r.db.bugs == s.bugs && r.db.requests == s.requests
    ensures r.reply.Ok? ==>
              && !IsMember(r.db, me, id)
              && forall u :: u != me ==> (IsMember(r.db, u, id) <==> IsMember(s, u, id))
  {
    if id !in s.groups then Step(s, Fail(NotFound))
    else if me !in s.users then Step(s, Fail(NotFound))
    else
      var group := s.groups[id];
      var user := s.users[me];
      if group.manager != me then Step(s, Fail(Unauthorized))
      else
        var saved := s.(users := s.users[me := user.(groups := RemoveAll(user.groups, id))]);
        Step(saved.(groups := saved.groups - {id}), Ok(()))
  }

  /** After a successful deleteGroup, getGroup answers 404. */
  lemma DeletedGroupIsNotFound(s: Db, me: Id, id: Id)
    requires DeleteGroup(s, me, id).reply.Ok?
    ensures GetGroup(DeleteGroup(s, me, id).db, id) == Fail(NotFound)
  {
  }
}
