/** What each bug handler does to the database, as functions of the database before the call. */
module Bugs {
  import opened Wrappers
  import opened ObjectIds
  import opened BugModel
  import opened Store

  /** Nothing outside the bug collection differs between `s` and `t`. */
  ghost predicate OnlyBugsDiffer(s: Db, t: Db) {
    t.users == s.users && t.groups == s.groups && t.requests == s.requests
  }

  /** The fields createBug reads from the request body; a `createdBy` in the body is never read. */
  datatype BugBody = BugBody(
    title: Option<string>,
    description: Option<string>,
    status: Option<string>,
    priority: Option<string>,
    takedBy: Option<string>)

  /** createBug: the caller becomes the creator; the schema supplies the defaults and the validation. */
  function CreateBug(s: Db, me: Id, body: BugBody, newId: Id): (r: Step<Id>)
    requires newId !in s.bugs
    ensures me !in s.users ==> r == Step(s, Fail(NotFound))
    ensures r.reply.Fail? ==> r.db == s
    ensures me in s.users ==>
              (r.reply == Fail(Thrown) <==> NewBug(body.title, body.description, body.status, body.priority, Some(me), body.takedBy).Fail?)
    ensures me in s.users && NewBug(body.title, body.description, body.status, body.priority, Some(me), body.takedBy).Ok? ==>
              r.reply == Ok(newId)
    ensures r.reply.Ok? ==>
              && r.reply.value == newId
              && OnlyBugsDiffer(s, r.db)
              && newId in r.db.bugs
              && Inserted(s.bugs, r.db.bugs, newId, r.db.bugs[newId])
              && r.db.bugs[newId] == NewBug(body.title, body.description, body.status, body.priority, Some(me), body.takedBy).value
              && r.db.bugs[newId].createdBy == me
              && r.db.bugs[newId].title == body.title.value
              && r.db.bugs[newId].description == body.description.value
    ensures r.reply.Ok? && body.takedBy.None? ==> r.db.bugs[newId].takedBy == NoOne
    ensures r.reply.Ok? && body.takedBy.Some? ==> r.db.bugs[newId].takedBy == body.takedBy.value
  {
    if me !in s.users then Step(s, Fail(NotFound))
    else
      var created := NewBug(body.title, body.description, body.status, body.priority, Some(me), body.takedBy);
      if created.Fail? then Step(s, Fail(created.error))
      else Step(s.(bugs := s.bugs[newId := created.value]), Ok(newId))
  }

  /** The query getBugs builds: a key is set only for a truthy query parameter. */
  datatype Filter = Filter(priority: Option<string>, status: Option<string>)

  function BuildFilter(priority: Option<string>, status: Option<string>): (f: Filter)
    ensures f.priority.Some? <==> Truthy(priority)
    ensures f.status.Some? <==> Truthy(status)
    ensures f.priority.Some? ==> f.priority == priority
    ensures f.status.Some? ==> f.status == status
  {
    var f := Filter(None, None);
    var f := if Truthy(priority) then f.(priority := priority) else f;
    if Truthy(status) then f.(status := status) else f
  }

  /** A bug matches when every key of the filter equals the text the bug stores under it. */
  predicate Matches(f: Filter, b: Bug) {
    && (f.priority.None? || PriorityText(b.priority) == f.priority.value)
    && (f.status.None? || BugStatusText(b.status) == f.status.value)
  }

  /** getBugs: the bugs whose priority and status equal the supplied ones; an absent or empty parameter constrains nothing. */
  function GetBugs(s: Db, priority: Option<string>, status: Option<string>): (r: map<Id, Bug>)
    ensures forall k :: k in r <==>
              && k in s.bugs
              && (!Truthy(priority) || PriorityText(s.bugs[k].priority) == priority.value)
              && (!Truthy(status) || BugStatusText(s.bugs[k].status) == status.value)
    ensures forall k :: k in r ==> r[k] == s.bugs[k]
  {
    var f := BuildFilter(priority, status);
    map k | k in s.bugs && Matches(f, s.bugs[k]) :: s.bugs[k]
  }

  /** With neither parameter, getBugs lists the whole collection. */
  lemma GetBugsUnfiltered(s: Db, priority: Option<string>, status: Option<string>)
    requires !Truthy(priority) && !Truthy(status)
    ensures GetBugs(s, priority, status) == s.bugs
  {
  }

  /** A priority outside the enumeration matches no stored bug. */
  lemma GetBugsUnknownPriority(s: Db, priority: Option<string>, status: Option<string>)
    requires Truthy(priority) && ParsePriority(priority.value).None?
    ensures GetBugs(s, priority, status) == map[]
  {
    forall k | k in s.bugs
      ensures k !in GetBugs(s, priority, status)
    {
      assert PriorityText(s.bugs[k].priority) != priority.value;
    }
  }

  /** getBugById: the stored bug, or 404. */
  function GetBugById(s: Db, id: Id): (r: Result<Bug>)
    ensures r.Ok? <==> id in s.bugs
    ensures r.Ok? ==> r.value == s.bugs[id]
    ensures r.Fail? ==> r.error == NotFound
  {
    if id in s.bugs then Ok(s.bugs[id]) else Fail(NotFound)
  }

  /** The caller may change or delete `b`: an administrator, its creator or its taker. */
  ghost predicate MayAlter(s: Db, me: Id, b: Bug)
    requires me in s.users
  {
    s.users[me].isAdmin || b.createdBy == me || b.takedBy == me
  }

  /** The fields updateBug reads from the body; status and priority are assumed to be listed values. */
  datatype BugPatch = BugPatch(
    title: Option<string>,
    description: Option<string>,
    status: Option<BugStatus>,
    priority: Option<Priority>)

  /** updateBug's merge: each field takes the supplied value when it is truthy; ownership is untouched. */
  function Patched(b: Bug, p: BugPatch): (b': Bug)
    ensures b'.createdBy == b.createdBy && b'.takedBy == b.takedBy
    ensures Truthy(p.title) ==> b'.title == p.title.value
    ensures !Truthy(p.title) ==> b'.title == b.title
    ensures Truthy(p.description) ==> b'.description == p.description.value
    ensures !Truthy(p.description) ==> b'.description == b.description
    ensures p.status.Some? ==> b'.status == p.status.value
    ensures p.status.None? ==> b'.status == b.status
    ensures p.priority.Some? ==> b'.priority == p.priority.value
    ensures p.priority.None? ==> b'.priority == b.priority
  {
    b.(title := OrElse(p.title, b.title),
       description := OrElse(p.description, b.description),
       status := OrKeep(p.status, b.status),
       priority := OrKeep(p.priority, b.priority))
  }

  /**
   * updateBug: 404 for a missing bug, 403 unless the caller may alter it. A caller with no user
   * document makes `user.isAdmin` throw.
   */
  function UpdateBug(s: Db, me: Id, id: Id, patch: BugPatch): (r: Step<Bug>)
    ensures id !in s.bugs ==> r == Step(s, Fail(NotFound))
    ensures id in s.bugs && me !in s.users ==> r == Step(s, Fail(Thrown))
    ensures id in s.bugs && me in s.users && !MayAlter(s, me, s.bugs[id]) ==> r == Step(s, Fail(Forbidden))
    ensures id in s.bugs && me in s.users && MayAlter(s, me, s.bugs[id]) ==> r.reply.Ok?
    ensures r.reply.Fail? ==> r.db == s
    ensures r.reply.Ok? ==>
              && id in s.bugs && me in s.users && MayAlter(s, me, s.bugs[id])
              && OnlyBugsDiffer(s, r.db)
              && r.reply.value == Patched(s.bugs[id], patch)
              && Replaced(s.bugs, r.db.bugs, id, r.reply.value)
  {
    if id !in s.bugs then Step(s, Fail(NotFound))
    else if me !in s.users then Step(s, Fail(Thrown))
    else
      var bug := s.bugs[id];
      var user := s.users[me];
      if !user.isAdmin && bug.createdBy != me && bug.takedBy != me then Step(s, Fail(Forbidden))
      else
        var updated := Patched(bug, patch);
        Step(s.(bugs := s.bugs[id := updated]), Ok(updated))
  }

  /** takeBug: only a bug nobody has taken can be taken, and the caller becomes its taker. */
  function TakeBug(s: Db, me: Id, id: Id): (r: Step<()>)
    ensures id !in s.bugs ==> r == Step(s, Fail(NotFound))
    ensures id in s.bugs && me !in s.users ==> r == Step(s, Fail(NotFound))
    ensures id in s.bugs && me in s.users && s.bugs[id].takedBy != NoOne ==> r == Step(s, Fail(BadRequest))
    ensures id in s.bugs && me in s.users && s.bugs[id].takedBy == NoOne ==> r.reply.Ok?
    ensures r.reply.Fail? ==> r.db == s
    ensures r.reply.Ok? ==>
              && id in s.bugs && me in s.users && s.bugs[id].takedBy == NoOne
              && OnlyBugsDiffer(s, r.db)
              && Replaced(s.bugs, r.db.bugs, id, s.bugs[id].(takedBy := me))
  {
    if id !in s.bugs then Step(s, Fail(NotFound))
    else if me !in s.users then Step(s, Fail(NotFound))
    else
      var bug := s.bugs[id];
      if bug.takedBy != NoOne then Step(s, Fail(BadRequest))
      else Step(s.(bugs := s.bugs[id := bug.(takedBy := me)]), Ok(()))
  }

  /** deleteBug: the same authorization as updateBug; success removes exactly that bug. */
  function DeleteBug(s: Db, me: Id, id: Id): (r: Step<()>)
    ensures id !in s.bugs ==> r == Step(s, Fail(NotFound))
    ensures id in s.bugs && me !in s.users ==> r == Step(s, Fail(Thrown))
    ensures id in s.bugs && me in s.users && !MayAlter(s, me, s.bugs[id]) ==> r == Step(s, Fail(Forbidden))
    ensures id in s.bugs && me in s.users && MayAlter(s, me, s.bugs[id]) ==> r.reply.Ok?
    ensures r.reply.Fail? ==> r.db == s
    ensures r.reply.Ok? ==>
              && id in s.bugs && me in s.users && MayAlter(s, me, s.bugs[id])
              && OnlyBugsDiffer(s, r.db)
              && Removed(s.bugs, r.db.bugs, id)
  {
    if id !in s.bugs then Step(s, Fail(NotFound))
    else if me !in s.users then Step(s, Fail(Thrown))
    else
      var bug := s.bugs[id];
      var user := s.users[me];
      if !user.isAdmin && bug.createdBy != me && bug.takedBy != me then Step(s, Fail(Forbidden))
      else Step(s.(bugs := s.bugs - {id}), Ok(()))
  }

  /** Once a bug is taken, every later takeBug on it fails and changes nothing. */
  lemma SecondTakeFails(s: Db, me: Id, other: Id, id: Id)
    requires TakeBug(s, me, id).reply.Ok?
    ensures var t := TakeBug(s, me, id).db;
            && TakeBug(t, other, id).db == t
            && TakeBug(t, other, id).reply == (if other in t.users then Fail(BadRequest) else Fail(NotFound))
  {
    NoOneIsNotAnId();
  }

  /** Whoever takes a bug may then update it and delete it. */
  lemma TakerMayAlter(s: Db, me: Id, id: Id, patch: BugPatch)
    requires TakeBug(s, me, id).reply.Ok?
    ensures var t := TakeBug(s, me, id).db;
            && UpdateBug(t, me, id, patch).reply == Ok(Patched(t.bugs[id], patch))
            && DeleteBug(t, me, id).reply.Ok?
  {
  }
}
