/** backend/api/v1/admin.py: the admin endpoints that create, update and
    delete users, and the platform analytics. Authentication of the caller
    (`get_current_admin_user`) is not part of this model. */
module Admin {
  import opened Wrappers
  import opened Accounts
  import Store

  /** An `HTTPException`: status code and detail. */
  datatype HttpError = HttpError(code: nat, detail: string)

  const EmailTaken: string := "Email already registered"
  const UserNotFound: string := "User not found"

  /** A commit that raises is not caught by the endpoint, so the server
      answers with its generic 500. */
  const ServerError: HttpError := HttpError(500, "Internal Server Error")

  /** The body of POST /users (`UserCreate`). */
  datatype UserCreate = UserCreate(email: string, password: string, nickname: Option<string>, isAdmin: bool)

  /** The body of PUT /users/{id} (`UserUpdate`): for each field, whether the
      client sent it and with what. */
  datatype UserUpdate = UserUpdate(email: Option<string>, nickname: Option<Option<string>>, isAdmin: Option<bool>)

  /** One entry of `user_update.dict(exclude_unset=True)`. */
  datatype Field = Email(email: string) | Nickname(nickname: Option<string>) | IsAdmin(isAdmin: bool)

  /** The fields the client sent, in the schema's order. */
  function UpdateData(upd: UserUpdate): seq<Field>
  {
    (if upd.email.Some? then [Email(upd.email.value)] else [])
    + (if upd.nickname.Some? then [Nickname(upd.nickname.value)] else [])
    + (if upd.isAdmin.Some? then [IsAdmin(upd.isAdmin.value)] else [])
  }

  /** `setattr(db_user, key, value)`. */
  function SetAttr(u: User, f: Field): User
  {
    match f
    case Email(e) => u.(email := e)
    case Nickname(n) => u.(nickname := n)
    case IsAdmin(a) => u.(isAdmin := a)
  }

  /** The `setattr` loop over a list of fields. */
  function SetAll(u: User, fields: seq<Field>): User
    decreases |fields|
  {
    if fields == [] then u else SetAttr(SetAll(u, fields[..|fields| - 1]), fields[|fields| - 1])
  }

  /** What a partial update means, field by field: a field the client sent
      takes the sent value, every other field, and the password hash, keep
      theirs. */
  function Updated(u: User, upd: UserUpdate): User
  {
    User(
      if upd.email.Some? then upd.email.value else u.email,
      if upd.nickname.Some? then upd.nickname.value else u.nickname,
      u.hashedPassword,
      if upd.isAdmin.Some? then upd.isAdmin.value else u.isAdmin)
  }

  /** The `setattr` loop over the sent fields performs exactly the partial
      update. */
  lemma SetAllUpdateData(u: User, upd: UserUpdate)
    ensures SetAll(u, UpdateData(upd)) == Updated(u, upd)
  {
    var e := if upd.email.Some? then [Email(upd.email.value)] else [];
    var n := if upd.nickname.Some? then [Nickname(upd.nickname.value)] else [];
    var a := if upd.isAdmin.Some? then [IsAdmin(upd.isAdmin.value)] else [];
    SetAllAppend(u, e, n);
    SetAllAppend(u, e + n, a);
  }

  lemma {:induction false} SetAllAppend(u: User, xs: seq<Field>, ys: seq<Field>)
    ensures SetAll(u, xs + ys) == SetAll(SetAll(u, xs), ys)
    decreases |ys|
  {
    if ys != [] {
      var last := |ys| - 1;
      assert (xs + ys)[..|xs + ys| - 1] == xs + ys[..last];
      SetAllAppend(u, xs, ys[..last]);
    } else {
      assert xs + ys == xs;
    }
  }

  /** Sending the same update twice leaves the user as sending it once; an
      update that sends nothing changes nothing. */
  lemma UpdateIdempotent(u: User, upd: UserUpdate)
    ensures Updated(Updated(u, upd), upd) == Updated(u, upd)
    ensures upd == UserUpdate(None, None, None) ==> Updated(u, upd) == u
  {
  }

  // ---------------------------------------------------------------------
  // The endpoints

  /** POST /users: 400 when the email is taken, otherwise one new user with
      the given email, nickname and admin flag and the hash of the password;
      `commitOk` says whether the commit goes through. */
  method CreateNewUser(t: UserTable, req: UserCreate, hash: string -> string, commitOk: bool) returns (r: Result<nat, HttpError>)
    requires t.Valid()
    modifies t
    ensures t.Valid()
    ensures FindByEmail(old(t.users), old(t.nextId), req.email).Some? ==>
      && r == Failure(HttpError(400, EmailTaken))
      && t.users == old(t.users) && t.nextId == old(t.nextId)
    ensures FindByEmail(old(t.users), old(t.nextId), req.email).None? && !commitOk ==>
      && r == Failure(ServerError)
      && t.users == old(t.users) && t.nextId == old(t.nextId)
    ensures FindByEmail(old(t.users), old(t.nextId), req.email).None? && commitOk ==>
      && r == Success(old(t.nextId))
      && old(t.nextId) !in old(t.users)
      && t.users == old(t.users)[old(t.nextId) := User(req.email, req.nickname, hash(req.password), req.isAdmin)]
      && t.nextId == old(t.nextId) + 1
    ensures UniqueEmails(old(t.users)) ==> UniqueEmails(t.users)
  {
    var existing := FindByEmail(t.users, t.nextId, req.email);
    if existing.Some? {
      return Failure(HttpError(400, EmailTaken));
    }
    var hashedPassword := hash(req.password);
    if !commitOk {
      return Failure(ServerError);
    }
    var id := t.nextId;
    t.users := t.users[id := User(req.email, req.nickname, hashedPassword, req.isAdmin)];
    t.nextId := id + 1;
    return Success(id);
  }

  /** PUT /users/{id}: 404 for an unknown id, otherwise the sent fields
      overwrite the user's and nothing else changes; a failed commit stores
      nothing. */
  method UpdateExistingUser(t: UserTable, id: nat, upd: UserUpdate, commitOk: bool) returns (r: Result<User, HttpError>)
    requires t.Valid()
    modifies t
    ensures t.Valid() && t.nextId == old(t.nextId)
    ensures id !in old(t.users) ==> r == Failure(HttpError(404, UserNotFound)) && t.users == old(t.users)
    ensures id in old(t.users) && !commitOk ==> r == Failure(ServerError) && t.users == old(t.users)
    ensures id in old(t.users) && commitOk ==>
      && r == Success(Updated(old(t.users)[id], upd))
      && t.users == old(t.users)[id := Updated(old(t.users)[id], upd)]
  {
    if id !in t.users {
      return Failure(HttpError(404, UserNotFound));
    }
    var user := t.users[id];
    var updateData := UpdateData(upd);
    for i := 0 to |updateData|
      invariant user == SetAll(t.users[id], updateData[..i])
    {
      assert updateData[..i + 1][..i] == updateData[..i];
      user := SetAttr(user, updateData[i]);
    }
    assert updateData[..|updateData|] == updateData;
    SetAllUpdateData(t.users[id], upd);
    if !commitOk {
      return Failure(ServerError);
    }
    t.users := t.users[id := user];
    return Success(user);
  }

  /** DELETE /users/{id}: 404 for an unknown id, otherwise exactly that user
      is removed; a failed commit removes nothing. */
  method DeleteExistingUser(t: UserTable, id: nat, commitOk: bool) returns (r: Option<HttpError>)
    requires t.Valid()
    modifies t
    ensures t.Valid() && t.nextId == old(t.nextId)
    ensures id !in old(t.users) ==> r == Some(HttpError(404, UserNotFound)) && t.users == old(t.users)
    ensures id in old(t.users) && !commitOk ==> r == Some(ServerError) && t.users == old(t.users)
    ensures id in old(t.users) && commitOk ==> r.None? && t.users == old(t.users) - {id}
  {
    if id !in t.users {
      return Some(HttpError(404, UserNotFound));
    }
    if !commitOk {
      return Some(ServerError);
    }
    t.users := t.users - {id};
    return None;
  }

  // ---------------------------------------------------------------------
  // Analytics

  /** The body of GET /analytics. */
  datatype Analytics = Analytics(
    totalUsers: nat,
    totalUploads: nat,
    totalAnalysisResults: nat,
    uploadsByStatus: map<Store.Status, nat>)

  /** The uploads in a given status. */
  function WithStatus(uploads: map<nat, Store.Upload>, s: Store.Status): set<nat>
  {
    set id | id in uploads && uploads[id].status == s
  }

  /** The `GROUP BY status` count: one entry per status that occurs. */
  function UploadsByStatus(uploads: map<nat, Store.Upload>): (m: map<Store.Status, nat>)
    ensures forall s :: s in m <==> WithStatus(uploads, s) != {}
    ensures forall s :: s in m ==> m[s] == |WithStatus(uploads, s)|
  {
    map s | s in {Store.Pending, Store.Processing, Store.Completed, Store.Failed} && WithStatus(uploads, s) != {}
      :: |WithStatus(uploads, s)|
  }

  function Count(m: map<Store.Status, nat>, s: Store.Status): nat
  {
    if s in m then m[s] else 0
  }

  /** `get_platform_analytics`. */
  function PlatformAnalytics<Row>(users: map<nat, User>, t: Store.Tables<Row>): Analytics
  {
    Analytics(|users|, |t.uploads|, |t.rows|, UploadsByStatus(t.uploads))
  }

  /** Each status's count is the size of its set of uploads. */
  lemma CountIsSize(uploads: map<nat, Store.Upload>, s: Store.Status)
    ensures Count(UploadsByStatus(uploads), s) == |WithStatus(uploads, s)|
  {
  }

  /** Every upload has exactly one of the four statuses, so the four sets
      split the uploads' keys and their sizes add up to the number of
      uploads. */
  lemma StatusSetsSplitUploads(u: map<nat, Store.Upload>)
    ensures |WithStatus(u, Store.Pending)| + |WithStatus(u, Store.Processing)|
      + |WithStatus(u, Store.Completed)| + |WithStatus(u, Store.Failed)| == |u|
  {
    var p, q, c, f := WithStatus(u, Store.Pending), WithStatus(u, Store.Processing),
      WithStatus(u, Store.Completed), WithStatus(u, Store.Failed);
    assert u.Keys == p + q + c + f;
    assert p !! q && (p + q) !! c && (p + q + c) !! f;
    assert |p + q| == |p| + |q|;
    assert |p + q + c| == |p + q| + |c|;
    assert |p + q + c + f| == |p + q + c| + |f|;
  }

  /** The per-status counts add up to the total number of uploads. */
  lemma StatusCountsSumToTotal<Row>(users: map<nat, User>, t: Store.Tables<Row>)
    ensures var a := PlatformAnalytics(users, t);
      Count(a.uploadsByStatus, Store.Pending) + Count(a.uploadsByStatus, Store.Processing)
        + Count(a.uploadsByStatus, Store.Completed) + Count(a.uploadsByStatus, Store.Failed)
      == a.totalUploads
  {
    var u := t.uploads;
    CountIsSize(u, Store.Pending);
    CountIsSize(u, Store.Processing);
    CountIsSize(u, Store.Completed);
    CountIsSize(u, Store.Failed);
    StatusSetsSplitUploads(u);
  }
}
