/** backend/create_user.py: the set-up script's `create_user`, an upsert by
    email. */
module CreateUser {
  import opened Wrappers
  import opened Accounts

  /** The table after `create_user(nickname, email, password, is_admin)`: an
      existing user with the email only has its admin flag set; otherwise a
      new user is added with the hash of the password. */
  function Upsert(
    users: map<nat, User>, nextId: nat,
    nickname: Option<string>, email: string, password: string, isAdmin: bool,
    hash: string -> string): (map<nat, User>, nat)
  {
    match FindByEmail(users, nextId, email)
    case Some(id) => (users[id := users[id].(isAdmin := isAdmin)], nextId)
    case None => (users[nextId := User(email, nickname, hash(password), isAdmin)], nextId + 1)
  }

  /** For an existing email only that user's admin flag changes: its
      nickname and password hash stay, and so does every other user. */
  lemma UpsertExisting(
    users: map<nat, User>, nextId: nat,
    nickname: Option<string>, email: string, password: string, isAdmin: bool,
    hash: string -> string)
    requires KeysBelow(users, nextId)
    requires exists id :: id in users && users[id].email == email
    ensures var (users', nextId') := Upsert(users, nextId, nickname, email, password, isAdmin, hash);
      var id := FindByEmail(users, nextId, email).value;
      && nextId' == nextId && users'.Keys == users.Keys
      && users'[id] == User(email, users[id].nickname, users[id].hashedPassword, isAdmin)
      && forall j :: j in users && j != id ==> users'[j] == users[j]
  {
  }

  /** For a new email exactly one user is added, at the next key, with the
      given nickname, email and admin flag and the hash of the password. */
  lemma UpsertNew(
    users: map<nat, User>, nextId: nat,
    nickname: Option<string>, email: string, password: string, isAdmin: bool,
    hash: string -> string)
    requires KeysBelow(users, nextId)
    requires forall id :: id in users ==> users[id].email != email
    ensures var (users', nextId') := Upsert(users, nextId, nickname, email, password, isAdmin, hash);
      && nextId' == nextId + 1 && nextId !in users
      && users' == users[nextId := User(email, nickname, hash(password), isAdmin)]
  {
  }

  /** Afterwards the user the email finds has the requested admin flag, and
      its password is a hash produced for that email: the given password's
      when the user is new. */
  lemma UpsertSetsAdmin(
    users: map<nat, User>, nextId: nat,
    nickname: Option<string>, email: string, password: string, isAdmin: bool,
    hash: string -> string)
    requires KeysBelow(users, nextId)
    ensures var (users', nextId') := Upsert(users, nextId, nickname, email, password, isAdmin, hash);
      && KeysBelow(users', nextId')
      && FindByEmail(users', nextId', email).Some?
      && var id := FindByEmail(users', nextId', email).value;
      && users'[id].isAdmin == isAdmin
      && (FindByEmail(users, nextId, email).None? ==> users'[id].hashedPassword == hash(password))
  {
    var (users', nextId') := Upsert(users, nextId, nickname, email, password, isAdmin, hash);
    var found := FindByEmail(users, nextId, email);
    if found.Some? {
      assert FindByEmail(users', nextId', email) == found by {
        FirstMatchUnchanged(users, users', nextId, email, found.value);
      }
    } else {
      assert FindByEmail(users', nextId', email) == Some(nextId) by {
        FirstMatchUnchanged(users, users', nextId', email, nextId);
      }
    }
  }

  /** A lookup still stops at key `id` when the users before it keep their
      emails and `id` holds the email. */
  lemma FirstMatchUnchanged(users: map<nat, User>, users': map<nat, User>, bound: nat, email: string, id: nat)
    requires KeysBelow(users', bound) && id < bound
    requires id in users' && users'[id].email == email
    requires forall j :: j < id && j in users' ==> j in users && users'[j].email == users[j].email
    requires forall j :: j < id && j in users ==> users[j].email != email
    ensures FindByEmail(users', bound, email) == Some(id)
  {
  }

  /** Running the script twice leaves the table as running it once, even
      though each run may hash with a fresh salt. */
  lemma UpsertIdempotent(
    users: map<nat, User>, nextId: nat,
    nickname: Option<string>, email: string, password: string, isAdmin: bool,
    hash1: string -> string, hash2: string -> string)
    requires KeysBelow(users, nextId)
    ensures var (users1, nextId1) := Upsert(users, nextId, nickname, email, password, isAdmin, hash1);
      Upsert(users1, nextId1, nickname, email, password, isAdmin, hash2) == (users1, nextId1)
  {
    var (users1, nextId1) := Upsert(users, nextId, nickname, email, password, isAdmin, hash1);
    UpsertSetsAdmin(users, nextId, nickname, email, password, isAdmin, hash1);
    var id := FindByEmail(users1, nextId1, email).value;
    assert users1[id := users1[id].(isAdmin := isAdmin)] == users1;
  }

  /** `create_user`, through one session and one commit. When the commit
      fails the script raises and the table keeps its old state. */
  method CreateUser(
    t: UserTable, nickname: Option<string>, email: string, password: string, isAdmin: bool,
    hash: string -> string, commitOk: bool) returns (raised: bool)
    requires t.Valid()
    modifies t
    ensures t.Valid()
    ensures raised == !commitOk
    ensures commitOk ==> (t.users, t.nextId) == Upsert(old(t.users), old(t.nextId), nickname, email, password, isAdmin, hash)
    ensures !commitOk ==> t.users == old(t.users) && t.nextId == old(t.nextId)
  {
    var user := FindByEmail(t.users, t.nextId, email);
    if !commitOk {
      return true;
    }
    raised := false;
    if user.Some? {
      t.users := t.users[user.value := t.users[user.value].(isAdmin := isAdmin)];
    } else {
      var hashedPassword := hash(password);
      t.users := t.users[t.nextId := User(email, nickname, hashedPassword, isAdmin)];
      t.nextId := t.nextId + 1;
    }
  }
}
