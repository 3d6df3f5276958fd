/** The `users` table the admin endpoints and the set-up script write: rows
    by primary key, looked up by email or by id. */
module Accounts {
  import opened Wrappers

  /** A row of `users`; the password is only ever stored hashed. */
  datatype User = User(email: string, nickname: Option<string>, hashedPassword: string, isAdmin: bool)

  /** Every key in use lies below the next key the database hands out. */
  predicate KeysBelow(users: map<nat, User>, nextId: nat)
  {
    forall id :: id in users ==> id < nextId
  }

  /** No two users share an email. */
  ghost predicate UniqueEmails(users: map<nat, User>)
  {
    forall i, j :: i in users && j in users && users[i].email == users[j].email ==> i == j
  }

  /** The scan behind `query(User).filter(User.email == email).first()`, over
      the keys `from` up to `bound`: the first key in that range holding a
      user with this email. */
  function FindFrom(users: map<nat, User>, email: string, from: nat, bound: nat): (r: Option<nat>)
    decreases bound - from
    ensures r.Some? ==>
      && from <= r.value < bound && r.value in users && users[r.value].email == email
      && forall j :: from <= j < r.value && j in users ==> users[j].email != email
    ensures r.None? ==> forall j :: from <= j < bound && j in users ==> users[j].email != email
  {
    if from >= bound then None
    else if from in users && users[from].email == email then Some(from)
    else FindFrom(users, email, from + 1, bound)
  }

  /** The user with this email that comes first by key, if any. Over a table
      whose keys lie below `nextId`, it finds a user exactly when one has
      the email, and then the one with the lowest key. */
  function FindByEmail(users: map<nat, User>, nextId: nat, email: string): (r: Option<nat>)
    ensures KeysBelow(users, nextId) ==>
      && (r.None? <==> forall id :: id in users ==> users[id].email != email)
      && (r.Some? ==>
            && r.value in users && users[r.value].email == email
            && forall id :: id in users && users[id].email == email ==> r.value <= id)
  {
    FindFrom(users, email, 0, nextId)
  }

  /** The table, as the session sees it. */
  class UserTable {
    var users: map<nat, User>
    var nextId: nat

    ghost predicate Valid()
      reads this
    {
      KeysBelow(users, nextId)
    }

    constructor()
      ensures Valid() && users == map[] && nextId == 0
    {
      users := map[];
      nextId := 0;
    }
  }
}
