/** The account handlers that write: registration inserts a user, a profile update assigns fields in place. */
module UserController {
  import opened Wrappers
  import opened ObjectIds
  import opened Store
  import Users

  method UserRegister(db: Database, name: string, email: string, password: string, newId: Id)
    returns (r: Result<Users.Profile>)
    requires newId !in db.users
    modifies db
    ensures db.State() == Users.Register(old(db.State()), name, email, password, newId).db
    ensures r == Users.Register(old(db.State()), name, email, password, newId).reply
  {
    if exists u :: u in db.users && db.users[u].email == email {
      return Fail(BadRequest);
    }
    var user := Users.NewUser(name, email, password);
    db.users := db.users[newId := user];
    return Ok(Users.Profile(newId, user.name, user.email));
  }

  method UpdateProfile(db: Database, me: Id, patch: Users.ProfilePatch) returns (r: Result<Users.Profile>)
    modifies db
    ensures db.State() == Users.UpdateProfile(old(db.State()), me, patch).db
    ensures r == Users.UpdateProfile(old(db.State()), me, patch).reply
  {
    if me !in db.users {
      return Fail(NotFound);
    }
    var user := db.users[me];
    user := user.(name := OrElse(patch.name, user.name));
    user := user.(email := OrElse(patch.email, user.email));
    if Truthy(patch.password) {
      user := user.(password := patch.password.value);
    }
    db.users := db.users[me := user];
    return Ok(Users.Profile(me, user.name, user.email));
  }
}
