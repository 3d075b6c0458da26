# BugTracker backend: authorization rules and record writes

This project models the controllers of the BugTracker backend, an Express and Mongoose
service for bugs, groups and group membership. Each request handler is modelled over an
in-memory database that holds four collections: users, groups, bugs, and membership
records. A membership record is a request, where a user asks to join a group, or an invite,
where a manager invites a user. For each handler the model gives a function, and for each
handler that writes, also a method:

- a **function** (modules `GroupRequests`, `Bugs`, `Groups`, `Users`). It maps the database
  before the call to the database after it and the reply: success, or 400, 401, 403, 404, or
  `Thrown`, an exception the handler does not catch. Its contract states who may call it,
  which error each guard produces and in which order, and exactly what changes;
- a **method** for every handler that writes (modules `GroupRequestsController`,
  `BugController`, `GroupController`, `UserController`). It works on the mutable
  `Store.Database` object in the same steps as the source: load the document, check it,
  assign fields on the loaded copy, save it back. Its contract says that the new state and
  the reply are the ones the function gives.

Schemas are datatypes. The bug schema is in `BugModel`: status and priority enumerations,
their defaults, the `"no one"` sentinel, and the required paths. The membership record schema
is in `GroupRequestModel`: kind and status enumerations, and the pending default.
`Model.create` is modelled as a validating constructor (`NewBug`, `NewGroupRequest`). Ids are
the 24-digit hexadecimal text of an ObjectId (`ObjectIds.Id`). A bug's `takedBy` is a String path. It holds the sentinel, the id takeBug writes
(backend/controllers/bugController.js:125), or whatever string the createBug body supplied. The
handlers compare it with `req.user._id.toString()`, so ids are modelled in their text form. `Server` gathers
every writing handler into one `Call` type and proves properties of every call and of runs of
calls:

- a membership record only moves from pending to accepted or rejected;
- only the counterpart changes its status;
- a bug's creator never changes, and once the bug is taken its taker never changes;
- every manager belongs to the group it manages;
- every bug's creator is a user;
- registration keeps emails unique.

The caller is the id that the authentication middleware attached (`req.user._id`). Ids for new
documents are parameters that must be fresh, because the database allocates them.

The handlers check less than one might expect. The model follows the code:

- getBugById, getBugs and getGroup check no group membership. Any authenticated caller gets
  the answer, and getBugs lists every bug that matches.
- The bug schema has no group reference, so bug permissions depend only on the administrator
  flag, the creator and the taker.
- createBug copies the body's `takedBy` into the new bug. A bug can therefore be created
  already taken, even by a string that is not a user's id. Only an absent value, or the
  literal "no one", leaves it unassigned.
- deleteBug lets the taker delete, like updateBug. A group's manager has no rights over bugs.

## Model

| member | source | states |
|---|---|---|
| `BugModel.ParseBugStatus` | backend/models/bugModel.js:13-18 | exactly "open", "in progress" and "closed" are accepted, each as the status whose stored text it is |
| `BugModel.ParsePriority` | backend/models/bugModel.js:19-24 | exactly "low", "medium" and "high" are accepted, each as the priority whose stored text it is |
| `BugModel.NoOneIsNotAnId` | backend/models/bugModel.js:30-33 | the sentinel "no one" is never the text of a user id |
| `BugModel.NewBug` | backend/models/bugModel.js:3-38 | creation succeeds iff title and description are non-empty, a creator is given and any supplied status/priority is listed; it stores the given values, status defaults to open, priority to medium, takedBy to "no one"; otherwise it throws |
| `GroupRequestModel.ParseKind` | backend/models/groupRequestModel.js:15-19 | exactly "request" and "invite" are accepted kinds |
| `GroupRequestModel.ParseRequestStatus` | backend/models/groupRequestModel.js:20-24 | exactly "pending", "accepted" and "rejected" are accepted statuses |
| `GroupRequestModel.NewGroupRequest` | backend/models/groupRequestModel.js:3-29 | creation succeeds iff group, user and a listed kind are given and any supplied status is listed; the status defaults to pending; otherwise it throws |
| `GroupRequests.Decision` | backend/controllers/groupRequestsController.js:173-177 | only the body values "accepted" and "rejected" are answers, and an answer is never pending |
| `GroupRequests.CreateGroupRequest` | backend/controllers/groupRequestsController.js:11-45 | 404 and nothing written iff the caller or the group is missing; otherwise exactly one new record, a pending request by the caller for the group, with no duplicate check |
| `GroupRequestsController.CreateGroupRequest` | backend/controllers/groupRequestsController.js:11-45 | performs createGroupRequest's checks and insert on the database, with the function's result |
| `GroupRequests.CreateGroupInvite` | backend/controllers/groupRequestsController.js:52-91 | 404 for a missing caller or group, 403 iff the caller is not the manager, nothing written on any failure; for the manager, a given `userID` always succeeds and adds exactly one pending invite for it, and a missing `userID` always throws |
| `GroupRequestsController.CreateGroupInvite` | backend/controllers/groupRequestsController.js:52-91 | performs createGroupInvite on the database, with the function's result |
| `GroupRequests.GetGroupRequests` | backend/controllers/groupRequestsController.js:98-126 | succeeds iff the caller exists and manages the existing group, 404 iff the caller or group is missing, 403 iff the caller is not the manager; on success exactly the records of that group, of both kinds and any status |
| `GroupRequests.GetGroupsInvites` | backend/controllers/groupRequestsController.js:132-146 | 404 iff the caller is missing; otherwise exactly the invites addressed to the caller, of any status |
| `GroupRequests.ResponseGroupInvite` | backend/controllers/groupRequestsController.js:153-196 | checks in order: missing 404, resolved 400, not an invite 400, not the invited user 403, bad answer 400, each leaving the database unchanged; any change needs a pending invite to the caller; the invited user's rejection always succeeds and changes only its status; their acceptance succeeds whenever they have a user document and also appends the group to their groups; without one it saves "accepted" and answers 404, the only failure that writes |
| `GroupRequests.AcceptedInviteWithoutUser` | backend/controllers/groupRequestsController.js:185-192 | when the invited user has no document, accepting answers 404 but leaves the invite accepted, and every later response is refused with 400 |
| `GroupRequestsController.ResponseGroupInvite` | backend/controllers/groupRequestsController.js:153-196 | saves the new status before the user lookup and push, with the function's result |
| `GroupRequests.ResponseGroupRequest` | backend/controllers/groupRequestsController.js:203-251 | checks in order: missing 404, resolved 400, not a request 400, group missing 404, caller not its manager 403, bad answer 400, each leaving the database unchanged; the manager's rejection always succeeds and changes only its status; acceptance succeeds whenever the requesting user exists and appends the group to that user's groups, not the manager's; otherwise it saves "accepted" and answers 404 |
| `GroupRequestsController.ResponseGroupRequest` | backend/controllers/groupRequestsController.js:203-251 | saves the new status before the user lookup and push, with the function's result |
| `GroupRequests.DeleteGroupRequest` | backend/controllers/groupRequestsController.js:257-289 | succeeds iff the record and the caller exist and the caller is the requesting user (request) or the manager of the existing group (invite); 404 exactly when the record, the caller or an invite's group is missing; 403 exactly when that person is someone else; success removes exactly that record; failures change nothing |
| `GroupRequests.DeleteIgnoresStatus` | backend/controllers/groupRequestsController.js:270-287 | whether a record may be deleted does not depend on its status |
| `GroupRequestsController.DeleteGroupRequest` | backend/controllers/groupRequestsController.js:257-289 | performs deleteGroupRequest on the database, with the function's result |
| `Bugs.CreateBug` | backend/controllers/bugController.js:8-39 | 404 if the caller is missing; for an existing caller it throws iff the schema rejects the body and succeeds otherwise; success inserts exactly one bug, the schema's document built from the body with the caller as creator whatever the body says, so status and priority default to open and medium |
| `BugController.CreateBug` | backend/controllers/bugController.js:8-39 | performs createBug on the database, with the function's result |
| `Bugs.BuildFilter` | backend/controllers/bugController.js:45-52 | a filter key is set exactly when its query parameter is truthy, to that parameter |
| `Bugs.GetBugs` | backend/controllers/bugController.js:44-60 | exactly the stored bugs whose priority and status texts equal the truthy parameters |
| `Bugs.GetBugsUnfiltered` | backend/controllers/bugController.js:47-53 | with no truthy parameter, every bug is listed |
| `Bugs.GetBugsUnknownPriority` | backend/controllers/bugController.js:47-53 | a priority outside the enumeration selects no bug |
| `Bugs.GetBugById` | backend/controllers/bugController.js:65-73 | the stored bug iff it exists, 404 otherwise |
| `Bugs.Patched` | backend/controllers/bugController.js:91-94 | each of title, description, status and priority takes the supplied value only when it is truthy; creator and taker are untouched |
| `Bugs.UpdateBug` | backend/controllers/bugController.js:78-105 | 404 for a missing bug, a throw for a caller with no user document, 403 unless the caller is an administrator, the creator or the taker, and success exactly when the caller is one of them; no failure changes anything; success replaces only that bug, with the merge |
| `BugController.UpdateBug` | backend/controllers/bugController.js:78-105 | assigns the four merged fields on the loaded bug and saves it, with the function's result |
| `Bugs.TakeBug` | backend/controllers/bugController.js:110-128 | 404 for a missing bug or user, 400 when takedBy is not "no one", nothing changed on failure; an existing caller always takes an untaken bug, and success sets only takedBy, to the caller |
| `BugController.TakeBug` | backend/controllers/bugController.js:110-128 | assigns takedBy on the loaded bug and saves it, with the function's result |
| `Bugs.DeleteBug` | backend/controllers/bugController.js:133-148 | the same errors as updateBug and success exactly when the caller is an administrator, the creator or the taker; nothing changed on failure; success removes exactly that bug |
| `BugController.DeleteBug` | backend/controllers/bugController.js:133-148 | performs deleteBug on the database, with the function's result |
| `Bugs.SecondTakeFails` | backend/controllers/bugController.js:121-125 | after a successful take, every later take of that bug fails (400, or 404 for a missing user) and changes nothing |
| `Bugs.TakerMayAlter` | backend/controllers/bugController.js:85-88 | whoever took a bug may then update it and delete it |
| `Groups.RemoveAll` | backend/controllers/groupController.js:113 | `user.groups.remove(id)` drops every occurrence of the id, keeps every other id as often as it was, and leaves an array without the id untouched |
| `Groups.RemoveAllAppend` | backend/controllers/groupController.js:113 | removal distributes over concatenation, so the remaining ids keep their order |
| `Groups.CreateGroup` | backend/controllers/groupController.js:11-38 | 404 for a missing caller; otherwise exactly one new group managed by the caller, the only user change being the new id appended to the caller's groups, so the manager is a member |
| `GroupController.CreateGroup` | backend/controllers/groupController.js:11-38 | creates the group, then pushes it onto the caller and saves, with the function's result |
| `Groups.Members` | backend/controllers/groupController.js:46 | the members of a group are exactly the users whose groups contain it |
| `Groups.GetGroup` | backend/controllers/groupController.js:44-62 | 404 iff the group is missing; otherwise its title, its manager and exactly its derived members |
| `Groups.Merged` | backend/controllers/groupController.js:80-81 | title and description take the supplied value only when it is truthy; the manager is untouched |
| `Groups.UpdateGroup` | backend/controllers/groupController.js:69-92 | 404 for a missing group, 401 unless the request's `req.user_id` equals the manager, no change on failure; success replaces only that group with the merge |
| `GroupController.UpdateGroup` | backend/controllers/groupController.js:69-92 | assigns the merged fields on the loaded group and saves it, with the function's result |
| `Groups.UpdateGroupAlwaysRejected` | backend/controllers/groupController.js:76-79 | as written, with `req.user_id` unset, every update of an existing group, by its manager too, is refused with 401 and changes nothing |
| `Groups.UpdateGroupIntended` | backend/controllers/groupController.js:76-81 | compared with the caller's id instead, the manager's update applies the merge and anyone else gets 401 |
| `Groups.DeleteGroup` | backend/controllers/groupController.js:98-117 | 404 for a missing group or caller, 401 unless the caller is the manager, and the manager always succeeds; no change on failure; success removes the group and drops it from the caller's groups only, every other user keeping their membership as it was |
| `GroupController.DeleteGroup` | backend/controllers/groupController.js:98-117 | pulls the id from the caller and saves, then removes the group, with the function's result |
| `Groups.DeletedGroupIsNotFound` | backend/controllers/groupController.js:109-115 | after a successful deleteGroup, getGroup answers 404 |
| `Users.Register` | backend/controllers/userController.js:8-37 | 400 and nothing written when some user has the email; otherwise exactly one new user with that name, email and credential, no groups and no administrator rights |
| `UserController.UserRegister` | backend/controllers/userController.js:8-37 | performs userRegister on the database, with the function's result |
| `Users.RegisterKeepsEmailsUnique` | backend/controllers/userController.js:12-23 | a registration on a database with unique emails keeps them unique |
| `Users.FindOneByEmail` | backend/controllers/userController.js:45 | finds a user with the email iff there is one |
| `Users.Login` | backend/controllers/userController.js:42-59 | 401 when no user has the email or the password check fails; success names a user with that email whose stored credential accepts the password; with unique emails it succeeds iff such a user exists |
| `Users.GetProfile` | backend/controllers/userController.js:78-92 | 401 iff no user is attached to the request; otherwise that user's id, name and email |
| `Users.UpdateProfile` | backend/controllers/userController.js:97-118 | 404 and no change for a missing user; otherwise only that user changes: name and email take truthy supplied values, the credential a truthy supplied password, groups and rights are kept |
| `UserController.UpdateProfile` | backend/controllers/userController.js:97-118 | assigns the fields on the loaded user and saves it, with the function's result |
| `Users.UpdateProfileCanDuplicateEmail` | backend/controllers/userController.js:101 | a profile update can give a user another user's email, so email uniqueness holds for registration only |
| `Server.ApplyKeepsRequestHistory` | backend/controllers/groupRequestsController.js:159-162 | no call changes a kept record's group, user or kind, and its status changes only from pending to accepted or rejected |
| `Server.OnlyCounterpartResolves` | backend/controllers/groupRequestsController.js:168-171 | a record's status changes only by the matching response from its counterpart: the invited user for an invite, the group's manager for a request |
| `Server.ApplyKeepsBugOwnership` | backend/controllers/bugController.js:121-125 | no call changes a bug's creator, or the taker of a taken bug |
| `Server.CreateGroupKeepsManagersMembers` | backend/controllers/groupController.js:20-27 | creating a group keeps every manager a member of its group |
| `Server.DeleteGroupKeepsManagersMembers` | backend/controllers/groupController.js:109-115 | deleting a group keeps every remaining manager a member of its group |
| `Server.ApplyKeepsManagersMembers` | backend/controllers/groupController.js:20-27 | every call keeps every manager a member of the group it manages |
| `Server.RunKeepsManagersMembers` | backend/controllers/groupController.js:20-27 | so does every run of calls |
| `Server.ApplyKeepsCreatorsAreUsers` | backend/controllers/bugController.js:11-24 | every call keeps every bug's creator a user |
| `Server.RunKeepsCreatorsAreUsers` | backend/controllers/bugController.js:11-24 | so does every run of calls |
| `Server.ApplyKeepsUniqueEmails` | backend/controllers/userController.js:12-23 | every call except a profile update keeps emails unique |
| `Server.JoinByRequest` | backend/controllers/groupRequestsController.js:240-249 | after A creates a group, B requests to join and A accepts, both A and B are members |

## Left out

- Authentication middleware: the JWT check is not modelled, and a handler receives the caller's id. If a token belongs to a user who no longer exists, `req.user` is null, and a handler that reads `req.user._id` throws when it reaches that read. getBugs, getBugById, getGroup and updateGroup never read it, and several handlers answer 404 for a missing record first. That case is not modelled.
- Users.GetProfile: it reads the user record the middleware attached, not the database; the model passes that record in.
- Token signing, cookies and userLogout: these are HTTP plumbing. userLogout clears a cookie named `jwt`, but the token is issued and read under the name `token` (backend/utils/generateToken.js:7, backend/midlleware/authMiddleware.js:8), so logging out does not end the session.
- Request bodies: a field is either absent or a string. JSON `null` and values that are not strings are not modelled. For createBug, a null status or priority would fail validation, because a Mongoose default applies only to an undefined path. A null `takedBy` would be stored as null, after which takeBug answers 400, and updateBug and deleteBug throw for a caller who is neither administrator nor creator.
- Id validation: route ids are taken to be valid, as the middleware guarantees. Body ids (`groupID`, `userID`) are absent or valid. A malformed `groupID` would make its lookup throw a cast error. A malformed `userID` in createGroupInvite, which nothing looks up, would instead fail the cast inside `GroupRequest.create`. Neither is modelled.
- Routers, `server.js` and rate limiting: these only wire routes. `server.js` mounts no group router, so the group handlers are modelled as their controllers define them.
- Password hashing and `matchPassword`: the user model is not part of this model. The check is a function parameter of `Users.Login`, and the stored `password` is whatever that model keeps.
- The user and group models are not part of this model. Registration takes `name`, `email` and `password` as present strings; an absent field is not modelled. New users are taken to have no groups and no administrator rights. Group creation takes the title and description as given, with no schema validation. `Users.UpdateProfileCanDuplicateEmail` holds only if that model puts no unique index on `email`; with one, `user.save()` would fail instead.
- Document removal: `Groups.DeleteGroup` and `GroupRequests.DeleteGroupRequest` take `document.remove()` (backend/controllers/groupController.js:115, backend/controllers/groupRequestsController.js:287) to delete the document. That method exists only before Mongoose 7, and the Mongoose version in use is not part of this model.
- Saving invalid values: on update, the model assumes the body's status and priority are listed values, because `Bugs.BugPatch` holds enumerations. Validation on save is not modelled.
- The 400 branches taken when `Model.create` returns a falsy value are not modelled. `create` throws instead, and the model gives `Thrown` for that.
- Response bodies: `populate` projections, messages and timestamps are left out. Replies carry ids and records, not populated names and emails.
- Concurrency and half-finished multi-step writes: each handler runs as one sequential step. The one partial write modelled is the source's own order inside a handler, where a status is saved before the user lookup. For an invite that lookup is the caller's own document, which the middleware has just found. So in a sequential run, `GroupRequests.AcceptedInviteWithoutUser` describes a document deleted after authentication. A caller with no document at all throws at the identity check, before any write.
- Id allocation is a fresh-id parameter. Freshness only means the id is not in use now, so `Server` proves the request-history and ownership properties call by call, not over runs.
- Users.Login: a weaker contract than for one account per email. When several users share an email, `findOne` returns one of them unspecified, so success is characterised exactly only when emails are unique.
- Bugs.GetBugs: only a string parameter is modelled. A parameter given more than once, which Express turns into an array, is not modelled. Neither is a nested parameter such as `?priority[$ne]=low`, which Express's extended query parser turns into an operator filter.

## Findings

| source | as written | input that shows it | evidently intended | confidence | as-written member | corrected member |
|---|---|---|---|---|---|---|
| backend/controllers/groupController.js:76-79 | the manager is compared with `req.user_id`, a field nothing sets, so the comparison never matches | an existing group and its own manager sending `PUT /group/:id`: the reply is 401 and nothing changes | compare with the caller's id `req.user._id`, so the manager can update | high; not executed | `Groups.UpdateGroupAlwaysRejected` | `Groups.UpdateGroupIntended` |
