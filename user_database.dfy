/** The user table of database/db.py.

    The JSON file is the `users` field: _read_db/_write_db become reads and
    assignments of it. Each read of the file hands the caller a fresh copy, so
    records are values here. Ids (uuid4) and timestamps (datetime.now) are
    supplied by the caller. */
module UserDatabase {
  import opened Common

  type Embedding = seq<real>

  /** One entry of the "users" list. */
  datatype User = User(userId: string, username: string, email: Option<string>, faceEncoding: Embedding,
                       registeredAt: string, lastLogin: Option<string>)

  predicate HasUsername(username: string, u: User) {
    u.username == username
  }

  predicate HasId(userId: string, u: User) {
    u.userId == userId
  }

  /** The record at the index FirstMatch found, if any. */
  function RecordAt(users: seq<User>, i: Option<nat>): Option<User>
    requires i.Some? ==> i.value < |users|
  {
    match i
    case Some(k) => Some(users[k])
    case None => None
  }

  /** The table after update_last_login(userId) at time `now`: only the first
      record with that id gets the new last_login. */
  function LastLoginUpdated(users: seq<User>, userId: string, now: string): (updated: seq<User>)
    ensures |updated| == |users|
    ensures FirstMatch(users, u => HasId(userId, u)).None? ==> updated == users
    ensures forall i :: 0 <= i < |users| ==>
      updated[i] == if FirstMatch(users, u => HasId(userId, u)) == Some(i)
                    then users[i].(lastLogin := Some(now)) else users[i]
  {
    match FirstMatch(users, u => HasId(userId, u))
    case Some(k) => users[k := users[k].(lastLogin := Some(now))]
    case None => users
  }

  predicate UniqueIds(users: seq<User>) {
    forall i, j :: 0 <= i < j < |users| ==> users[i].userId != users[j].userId
  }

  /** With unique ids, updating the id of record `k` changes record `k` only. */
  lemma LastLoginUpdatedAt(users: seq<User>, k: nat, now: string)
    requires k < |users| && UniqueIds(users)
    ensures LastLoginUpdated(users, users[k].userId, now) == users[k := users[k].(lastLogin := Some(now))]
  {
    FirstMatchAt(users, u => HasId(users[k].userId, u), k);
  }

  class Database {
    var users: seq<User>

    /** A new database file holds an empty list. */
    constructor ()
      ensures users == []
    {
      users := [];
    }

    /** Appends one record with no last login and returns its id. No
        uniqueness check is made on the username. */
    method CreateUser(username: string, email: Option<string>, faceEncoding: Embedding,
                      userId: string, now: string) returns (id: string)
      modifies this
      ensures users == old(users) + [User(userId, username, email, faceEncoding, now, None)]
      ensures id == userId
    {
      var user := User(userId, username, email, faceEncoding, now, None);
      users := users + [user];
      return user.userId;
    }

    method GetUserByUsername(username: string) returns (found: Option<User>)
      ensures found == RecordAt(users, FirstMatch(users, u => HasUsername(username, u)))
      ensures found.None? <==> forall i :: 0 <= i < |users| ==> users[i].username != username
      ensures found.Some? ==> found.value in users && found.value.username == username
    {
      for i := 0 to |users|
        invariant forall j :: 0 <= j < i ==> users[j].username != username
      {
        if users[i].username == username {
          FirstMatchAt(users, u => HasUsername(username, u), i);
          return Some(users[i]);
        }
      }
      return None;
    }

    method GetUserById(userId: string) returns (found: Option<User>)
      ensures found == RecordAt(users, FirstMatch(users, u => HasId(userId, u)))
      ensures found.None? <==> forall i :: 0 <= i < |users| ==> users[i].userId != userId
      ensures found.Some? ==> found.value in users && found.value.userId == userId
    {
      for i := 0 to |users|
        invariant forall j :: 0 <= j < i ==> users[j].userId != userId
      {
        if users[i].userId == userId {
          FirstMatchAt(users, u => HasId(userId, u), i);
          return Some(users[i]);
        }
      }
      return None;
    }

    method UpdateLastLogin(userId: string, now: string)
      modifies this
      ensures users == LastLoginUpdated(old(users), userId, now)
    {
      var i := 0;
      while i < |users|
        invariant i <= |users| && users == old(users)
        invariant forall j :: 0 <= j < i ==> users[j].userId != userId
      {
        if users[i].userId == userId {
          FirstMatchAt(users, u => HasId(userId, u), i);
          users := users[i := users[i].(lastLogin := Some(now))];
          break;
        }
        i := i + 1;
      }
    }

    /** The whole list, in insertion order. */
    method GetAllUsers() returns (all: seq<User>)
      ensures all == users
    {
      return users;
    }
  }
}
