/**
 * The database the controllers read and write: one map per collection, keyed by document id.
 * `Db` is its value; `Database` is the mutable store the handlers update in place.
 */
module Store {
  import opened Wrappers
  import opened ObjectIds
  import opened BugModel
  import opened GroupRequestModel

  /**
   * A user document. `password` is whatever the user model stores for the credential
   * (its hashing is outside this model); `groups` may hold an id more than once.
   */
  datatype User = User(name: string, email: string, password: string, groups: seq<Id>, isAdmin: bool)

  datatype Group = Group(title: string, description: string, manager: Id)

  datatype Db = Db(
    users: map<Id, User>,
    groups: map<Id, Group>,
    bugs: map<Id, Bug>,
    requests: map<Id, GroupRequest>)

  /** What a handler leaves behind: the database after its writes, and its reply. */
  datatype Step<T> = Step(db: Db, reply: Result<T>)

  /** `m'` is `m` with exactly one new entry `k`, holding `v`. */
  ghost predicate Inserted<K, V>(m: map<K, V>, m': map<K, V>, k: K, v: V) {
    && k !in m
    && m'.Keys == m.Keys + {k}
    && m'[k] == v
    && forall j :: j in m ==> m'[j] == m[j]
  }

  /** `m'` is `m` with the entry `k` holding `v` instead, and every other entry as it was. */
  ghost predicate Replaced<K, V>(m: map<K, V>, m': map<K, V>, k: K, v: V) {
    && k in m
    && m'.Keys == m.Keys
    && m'[k] == v
    && forall j :: j in m && j != k ==> m'[j] == m[j]
  }

  /** `m'` is `m` without the entry `k`, and every other entry as it was. */
  ghost predicate Removed<K, V>(m: map<K, V>, m': map<K, V>, k: K) {
    && k in m
    && m'.Keys == m.Keys - {k}
    && forall j :: j in m' ==> m'[j] == m[j]
  }

  /** `u` belongs to group `g`: the group's id is among the user's `groups`. */
  ghost predicate IsMember(s: Db, u: Id, g: Id) {
    u in s.users && g in s.users[u].groups
  }

  class Database {
    var users: map<Id, User>
    var groups: map<Id, Group>
    var bugs: map<Id, Bug>
    var requests: map<Id, GroupRequest>

    /** The value of all four collections. */
    function State(): Db
      reads this
    {
      Db(users, groups, bugs, requests)
    }

    constructor ()
      ensures State() == Db(map[], map[], map[], map[])
    {
      users, groups, bugs, requests := map[], map[], map[], map[];
    }
  }
}
