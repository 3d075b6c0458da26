/** The bug handlers that write: load the bug, check the caller, assign fields on the loaded record, save or delete it. */
module BugController {
  import opened Wrappers
  import opened ObjectIds
  import opened BugModel
  import opened Store
  import Bugs

  method CreateBug(db: Database, me: Id, body: Bugs.BugBody, newId: Id) returns (r: Result<Id>)
    requires newId !in db.bugs
    modifies db
    ensures db.State() == Bugs.CreateBug(old(db.State()), me, body, newId).db
    ensures r == Bugs.CreateBug(old(db.State()), me, body, newId).reply
  {
    if me !in db.users {
      return Fail(NotFound);
    }
    var created := NewBug(body.title, body.description, body.status, body.priority, Some(me), body.takedBy);
    if created.Fail? {
      return Fail(created.error);
    }
    db.bugs := db.bugs[newId := created.value];
    return Ok(newId);
  }

  method UpdateBug(db: Database, me: Id, id: Id, patch: Bugs.BugPatch) returns (r: Result<Bug>)
    modifies db
    ensures db.State() == Bugs.UpdateBug(old(db.State()), me, id, patch).db
    ensures r == Bugs.UpdateBug(old(db.State()), me, id, patch).reply
  {
    if id !in db.bugs {
      return Fail(NotFound);
    }
    var bug := db.bugs[id];
    if me !in db.users {
      return Fail(Thrown);
    }
    var user := db.users[me];
    if !user.isAdmin && bug.createdBy != me && bug.takedBy != me {
      return Fail(Forbidden);
    }
    bug := bug.(title := OrElse(patch.title, bug.title));
    bug := bug.(description := OrElse(patch.description, bug.description));
    bug := bug.(status := OrKeep(patch.status, bug.status));
    bug := bug.(priority := OrKeep(patch.priority, bug.priority));
    db.bugs := db.bugs[id := bug];
    return Ok(bug);
  }

  method TakeBug(db: Database, me: Id, id: Id) returns (r: Result<()>)
    modifies db
    ensures db.State() == Bugs.TakeBug(old(db.State()), me, id).db
    ensures r == Bugs.TakeBug(old(db.State()), me, id).reply
  {
    if id !in db.bugs {
      return Fail(NotFound);
    }
    var bug := db.bugs[id];
    if me !in db.users {
      return Fail(NotFound);
    }
    if bug.takedBy != NoOne {
      return Fail(BadRequest);
    }
    bug := bug.(takedBy := me);
    db.bugs := db.bugs[id := bug];
    return Ok(());
  }

  method DeleteBug(db: Database, me: Id, id: Id) returns (r: Result<()>)
    modifies db
    ensures db.State() == Bugs.DeleteBug(old(db.State()), me, id).db
    ensures r == Bugs.DeleteBug(old(db.State()), me, id).reply
  {
    if id !in db.bugs {
      return Fail(NotFound);
    }
    var bug := db.bugs[id];
    if me !in db.users {
      return Fail(Thrown);
    }
    var user := db.users[me];
    if !user.isAdmin && bug.createdBy != me && bug.takedBy != me {
      return Fail(Forbidden);
    }
    db.bugs := db.bugs - {id};
    return Ok(());
  }
}
