/** What each account handler does, as functions of the database before the call. */
module Users {
  import opened Wrappers
  import opened ObjectIds
  import opened Store

  /** What the account handlers answer with: never the stored credential. */
  datatype Profile = Profile(id: Id, name: string, email: string)

  /** `User.findOne({ email })` finds a document. */
  predicate EmailTaken(s: Db, email: string) {
    exists u :: u in s.users && s.users[u].email == email
  }

  /** No two users share an email. */
  ghost predicate UniqueEmails(s: Db) {
    forall a, b :: a in s.users && b in s.users && s.users[a].email == s.users[b].email ==> a == b
  }

  /** The document a registration creates: no groups yet and no administrator rights. */
  function NewUser(name: string, email: string, password: string): User {
    User(name, email, password, [], false)
  }

  /** userRegister: refused with 400 when some user already has the email. */
  function Register(s: Db, name: string, email: string, password: string, newId: Id): (r: Step<Profile>)
    requires newId !in s.users
    ensures EmailTaken(s, email) ==> r == Step(s, Fail(BadRequest))
    ensures r.reply.Ok? ==> forall u :: u in s.users ==> s.users[u].email != email
    ensures !EmailTaken(s, email) ==>
              && r.reply == Ok(Profile(newId, name, email))
              && Inserted(s.users, r.db.users, newId, NewUser(name, email, password))
              && r.db.groups == s.groups && r.db.bugs == s.bugs && r.db.requests == s.requests
  {
    if EmailTaken(s, email) then Step(s, Fail(BadRequest))
    else Step(s.(users := s.users[newId := NewUser(name, email, password)]), Ok(Profile(newId, name, email)))
  }

  /** Registration never creates a second account for an email. */
  lemma RegisterKeepsEmailsUnique(s: Db, name: string, email: string, password: string, newId: Id)
    requires newId !in s.users
    requires UniqueEmails(s)
    ensures UniqueEmails(Register(s, name, email, password, newId).db)
  {
  }

  /** `User.findOne({ email })`: one of the users with that email, if there is any. */
  ghost function FindOneByEmail(s: Db, email: string): (r: Option<Id>)
    ensures r.None? <==> !EmailTaken(s, email)
    ensures r.Some? ==> r.value in s.users && s.users[r.value].email == email
  {
    if EmailTaken(s, email) then Some(var u :| u in s.users && s.users[u].email == email; u) else None
  }

  /**
   * userLogin: 401 unless the user found by email accepts the password. `matchPassword(stored,
   * candidate)` stands for the user model's password check, which is not part of this model.
   */
  ghost function Login(s: Db, email: string, password: string, matchPassword: (string, string) -> bool)
    : (r: Result<Profile>)
    ensures r.Fail? ==> r.error == Unauthorized
    ensures !EmailTaken(s, email) ==> r.Fail?
    ensures r.Ok? ==>
              && r.value.id in s.users
              && r.value == Profile(r.value.id, s.users[r.value.id].name, email)
              && s.users[r.value.id].email == email
              && matchPassword(s.users[r.value.id].password, password)
    ensures UniqueEmails(s) ==>
              (r.Ok? <==> exists u :: u in s.users && s.users[u].email == email && matchPassword(s.users[u].password, password))
  {
    match FindOneByEmail(s, email)
    case None => Fail(Unauthorized)
    case Some(id) =>
      var user := s.users[id];
      if matchPassword(user.password, password) then Ok(Profile(id, user.name, user.email))
      else Fail(Unauthorized)
  }

  /** getProfile: the user the middleware attached to the request, or 401 when there is none. */
  function GetProfile(reqUser: Option<(Id, User)>): (r: Result<Profile>)
    ensures r.Fail? <==> reqUser.None?
    ensures r.Fail? ==> r.error == Unauthorized
    ensures r.Ok? ==>
              r.value.id == reqUser.value.0 && r.value.name == reqUser.value.1.name && r.value.email == reqUser.value.1.email
  {
    match reqUser
    case None => Fail(Unauthorized)
    case Some((id, user)) => Ok(Profile(id, user.name, user.email))
  }

  /** The fields updateProfile reads from the body. */
  datatype ProfilePatch = ProfilePatch(name: Option<string>, email: Option<string>, password: Option<string>)

  /** updateProfile: truthy fields replace the stored ones; groups and rights are untouched. */
  function UpdateProfile(s: Db, me: Id, patch: ProfilePatch): (r: Step<Profile>)
    ensures me !in s.users ==> r == Step(s, Fail(NotFound))
    ensures me in s.users ==>
              && r.reply.Ok?
              && me in r.db.users
              && Replaced(s.users, r.db.users, me, r.db.users[me])
              && r.db.groups == s.groups && r.db.bugs == s.bugs && r.db.requests == s.requests
              && r.reply.value == Profile(me, r.db.users[me].name, r.db.users[me].email)
    ensures me in s.users ==>
              var (u, u') := (s.users[me], r.db.users[me]);
              && u'.name == (if Truthy(patch.name) then patch.name.value else u.name)
              && u'.email == (if Truthy(patch.email) then patch.email.value else u.email)
              && u'.password == (if Truthy(patch.password) then patch.password.value else u.password)
              && u'.groups == u.groups && u'.isAdmin == u.isAdmin
  {
    if me !in s.users then Step(s, Fail(NotFound))
    else
      var user := s.users[me];
      var updated := user.(name := OrElse(patch.name, user.name),
                           email := OrElse(patch.email, user.email),
                           password := if Truthy(patch.password) then patch.password.value else user.password);
      Step(s.(users := s.users[me := updated]), Ok(Profile(me, updated.name, updated.email)))
  }

  /** Unlike registration, a profile update can give a user an email another user already has. */
  lemma UpdateProfileCanDuplicateEmail()
    ensures exists s: Db, me: Id, patch: ProfilePatch ::
              UniqueEmails(s) && UpdateProfile(s, me, patch).reply.Ok? && !UniqueEmails(UpdateProfile(s, me, patch).db)
  {
    var a: Id := "000000000000000000000000";
    var b: Id := "000000000000000000000001";
    var s := Db(map[a := NewUser("a", "a@x", "p"), b := NewUser("b", "b@x", "q")], map[], map[], map[]);
    var patch := ProfilePatch(None, Some("b@x"), None);
    assert UniqueEmails(s);
    var t := UpdateProfile(s, a, patch).db;
    assert t.users[a].email == t.users[b].email;
  }
}
