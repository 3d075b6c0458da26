/** The group handlers that write: create the group and push it onto the creator, merge fields in place, pull and remove. */
module GroupController {
  import opened Wrappers
  import opened ObjectIds
  import opened Store
  import Groups

  method CreateGroup(db: Database, me: Id, title: string, description: string, newId: Id) returns (r: Result<Id>)
    requires newId !in db.groups
    modifies db
    ensures db.State() == Groups.CreateGroup(old(db.State()), me, title, description, newId).db
    ensures r == Groups.CreateGroup(old(db.State()), me, title, description, newId).reply
  {
    if me !in db.users {
      return Fail(NotFound);
    }
    var user := db.users[me];
    db.groups := db.groups[newId := Group(title, description, me)];
    user := user.(groups := user.groups + [newId]);
    db.users := db.users[me := user];
    return Ok(newId);
  }

  /** `userIdField` is the request's `req.user_id`; as written, it is `Groups.RequestUserIdField`. */
  method UpdateGroup(db: Database, userIdField: Option<string>, id: Id, title: Option<string>, description: Option<string>)
    returns (r: Result<Group>)
    modifies db
    ensures db.State() == Groups.UpdateGroup(old(db.State()), userIdField, id, title, description).db
    ensures r == Groups.UpdateGroup(old(db.State()), userIdField, id, title, description).reply
  {
    if id !in db.groups {
      return Fail(NotFound);
    }
    var group := db.groups[id];
    if !Groups.Equals(userIdField, group.manager) {
      return Fail(Unauthorized);
    }
    group := group.(title := OrElse(title, group.title));
    group := group.(description := OrElse(description, group.description));
    db.groups := db.groups[id := group];
    return Ok(group);
  }

  method DeleteGroup(db: Database, me: Id, id: Id) returns (r: Result<()>)
    modifies db
    ensures db.State() == Groups.DeleteGroup(old(db.State()), me, id).db
    ensures r == Groups.DeleteGroup(old(db.State()), me, id).reply
  {
    if id !in db.groups {
      return Fail(NotFound);
    }
    var group := db.groups[id];
    if me !in db.users {
      return Fail(NotFound);
    }
    var user := db.users[me];
    if group.manager != me {
      return Fail(Unauthorized);
    }
    user := user.(groups := Groups.RemoveAll(user.groups, id));
    db.users := db.users[me := user];
    db.groups := db.groups - {id};
    return Ok(());
  }
}
