/** The relational store the handlers write through a SQLAlchemy session:
    the `uploads` table, an append-only table of result rows, and a session
    that stages changes until a commit, which may fail. */
module Store {
  import opened Wrappers

  /** The `status` strings the handlers write ('pending' is the column default). */
  datatype Status = Pending | Processing | Completed | Failed

  /** A row of `uploads`. `userId` is None in the backend copy, which has no
      such column. */
  datatype Upload = Upload(filename: string, status: Status, userId: Option<int>)

  /** The committed contents: uploads by primary key, the next key the
      database will hand out, and the result rows in insertion order. */
  datatype Tables<Row> = Tables(uploads: map<nat, Upload>, nextId: nat, rows: seq<Row>)

  /** A change staged in the session. */
  datatype Change<Row> =
    | Insert(upload: Upload)
    | SetStatus(id: nat, status: Status)
    | AddRow(row: Row)

  /** Every key in use lies below the next key. */
  predicate KeysBelowNext<Row>(t: Tables<Row>)
  {
    forall id :: id in t.uploads ==> id < t.nextId
  }

  function Apply<Row>(t: Tables<Row>, c: Change<Row>): Tables<Row>
  {
    match c
    case Insert(u) => Tables(t.uploads[t.nextId := u], t.nextId + 1, t.rows)
    case SetStatus(id, s) =>
      if id in t.uploads then t.(uploads := t.uploads[id := t.uploads[id].(status := s)]) else t
    case AddRow(r) => t.(rows := t.rows + [r])
  }

  function ApplyAll<Row>(t: Tables<Row>, cs: seq<Change<Row>>): Tables<Row>
    decreases |cs|
  {
    if cs == [] then t else ApplyAll(Apply(t, cs[0]), cs[1..])
  }

  function Rows<Row>(rs: seq<Row>): seq<Change<Row>>
  {
    seq(|rs|, i requires 0 <= i < |rs| => AddRow(rs[i]))
  }

  /** Committing a batch of staged rows appends exactly those rows, in order,
      and leaves the uploads alone. */
  lemma {:induction false} ApplyRows<Row>(t: Tables<Row>, rs: seq<Row>)
    ensures ApplyAll(t, Rows(rs)) == t.(rows := t.rows + rs)
    decreases |rs|
  {
    if rs != [] {
      assert Rows(rs)[1..] == Rows(rs[1..]);
      ApplyRows(Apply(t, AddRow(rs[0])), rs[1..]);
      assert t.rows + [rs[0]] + rs[1..] == t.rows + rs;
    }
  }

  /** A new upload gets the next key, and keys stay below the next key. */
  lemma InsertTakesNextKey<Row>(t: Tables<Row>, u: Upload)
    requires KeysBelowNext(t)
    ensures var t' := Apply(t, Insert(u));
      && KeysBelowNext(t')
      && t.nextId !in t.uploads
      && t'.uploads.Keys == t.uploads.Keys + {t.nextId}
      && t'.uploads[t.nextId] == u
      && (forall id :: id in t.uploads ==> t'.uploads[id] == t.uploads[id])
  {
  }

  /** The database as the handler sees it through its session. Commits are
      numbered; `commitOk(n)` says whether the n-th commit attempted on the
      database succeeds (connection and constraint faults). */
  class Database<Row> {
    var tables: Tables<Row>
    var pending: seq<Change<Row>>
    var attempts: nat
    const commitOk: nat -> bool

    constructor(initial: Tables<Row>, commitOk: nat -> bool)
      ensures tables == initial && pending == [] && attempts == 0 && this.commitOk == commitOk
    {
      tables := initial;
      pending := [];
      attempts := 0;
      this.commitOk := commitOk;
    }

    /** `db.add(...)`, or an attribute set on a persistent object. */
    method Stage(c: Change<Row>)
      modifies this
      ensures pending == old(pending) + [c]
      ensures tables == old(tables) && attempts == old(attempts)
    {
      pending := pending + [c];
    }

    /** `db.commit()`: on success the staged changes become the committed
        contents; on failure nothing is committed and the staged changes
        wait for a rollback. */
    method Commit() returns (ok: bool)
      modifies this
      ensures ok == commitOk(old(attempts)) && attempts == old(attempts) + 1
      ensures ok ==> tables == ApplyAll(old(tables), old(pending)) && pending == []
      ensures !ok ==> tables == old(tables) && pending == old(pending)
    {
      ok := commitOk(attempts);
      if ok {
        tables := ApplyAll(tables, pending);
        pending := [];
      }
      attempts := attempts + 1;
    }

    /** `db.rollback()`, and `db.close()`, which discards what is staged. */
    method Rollback()
      modifies this
      ensures pending == [] && tables == old(tables) && attempts == old(attempts)
    {
      pending := [];
    }
  }

  // ---------------------------------------------------------------------
  // The commit discipline both handlers follow once an upload is committed

  /** The database state the handlers' specifications track: the committed
      tables and the number of commits attempted so far. */
  datatype Db<Row> = Db(tables: Tables<Row>, attempts: nat)

  function StatusSet<Row>(db: Db<Row>, id: nat, s: Status): Db<Row>
  {
    Db(Apply(db.tables, SetStatus(id, s)), db.attempts + 1)
  }

  /** How one record ends: skipped by `continue`, finished, or with an
      exception that leaves the handler. */
  datatype Outcome = Skipped | Finished | Aborted

  /** The `except` block for a committed upload: roll back, mark it failed,
      commit, and re-raise. */
  function MarkFailed<Row>(ok: nat -> bool, db: Db<Row>, id: nat): (Db<Row>, Outcome)
  {
    if ok(db.attempts) then (StatusSet(db, id, Failed), Aborted)
    else (Db(db.tables, db.attempts + 1), Aborted)
  }

  /** The closing commit of the status `s`; when it fails, the `except`
      block. */
  function Conclude<Row>(ok: nat -> bool, db: Db<Row>, id: nat, s: Status): (Db<Row>, Outcome)
  {
    if ok(db.attempts) then (StatusSet(db, id, s), Finished)
    else MarkFailed(ok, Db(db.tables, db.attempts + 1), id)
  }

  /** `db.add(upload); db.commit()`. When the commit fails, the `except`
      block rolls back, which drops the new object, so marking it failed and
      committing again writes nothing. */
  method CreateUpload<Row>(db: Database<Row>, u: Upload) returns (ok: bool)
    requires db.pending == []
    modifies db
    ensures ok == db.commitOk(old(db.attempts))
    ensures ok ==> Db(db.tables, db.attempts) == Db(Apply(old(db.tables), Insert(u)), old(db.attempts) + 1)
    ensures !ok ==> Db(db.tables, db.attempts) == Db(old(db.tables), old(db.attempts) + 2)
    ensures db.pending == []
  {
    db.Stage(Insert(u));
    ok := db.Commit();
    if !ok {
      db.Rollback();
      var _ := db.Commit();
      db.Rollback();
    }
  }

  /** The `except` block once the upload is committed. */
  method FailUpload<Row>(db: Database<Row>, uploadId: nat) returns (outcome: Outcome)
    modifies db
    ensures (Db(db.tables, db.attempts), outcome)
      == MarkFailed(db.commitOk, Db(old(db.tables), old(db.attempts)), uploadId)
    ensures db.pending == []
  {
    db.Rollback();
    db.Stage(SetStatus(uploadId, Failed));
    var ok := db.Commit();
    db.Rollback();
    return Aborted;
  }

  /** The closing `db.commit()` of the status. */
  method SetFinalStatus<Row>(db: Database<Row>, uploadId: nat, s: Status) returns (outcome: Outcome)
    requires db.pending == []
    modifies db
    ensures (Db(db.tables, db.attempts), outcome)
      == Conclude(db.commitOk, Db(old(db.tables), old(db.attempts)), uploadId, s)
    ensures db.pending == []
  {
    db.Stage(SetStatus(uploadId, s));
    var ok := db.Commit();
    if !ok {
      outcome := FailUpload(db, uploadId);
    } else {
      outcome := Finished;
    }
  }

  /** From the committed upload `id` on, given the result rows the analysis
      produced (none when it produced None or []): with rows, stage and
      commit them and set `completed`; without, set `failed`. A failed
      commit of the rows goes to the `except` block. */
  function AfterInsert<Row>(ok: nat -> bool, db: Db<Row>, id: nat, rows: seq<Row>): (Db<Row>, Outcome)
  {
    if rows != [] then
      if !ok(db.attempts) then MarkFailed(ok, Db(db.tables, db.attempts + 1), id)
      else Conclude(ok, Db(db.tables.(rows := db.tables.rows + rows), db.attempts + 1), id, Completed)
    else Conclude(ok, db, id, Failed)
  }

  /** Once the upload is committed, the record either finishes or raises;
      and it finishes `completed` with its rows appended exactly when there
      were rows and both commits went through. */
  lemma AfterInsertOutcome<Row>(ok: nat -> bool, db: Db<Row>, id: nat, rows: seq<Row>)
    ensures var (db', outcome) := AfterInsert(ok, db, id, rows);
      && outcome != Skipped
      && (outcome == Finished <==> ok(db.attempts) && (rows != [] ==> ok(db.attempts + 1)))
      && (outcome == Finished ==>
            db'.tables == Apply(db.tables.(rows := db.tables.rows + rows),
                                SetStatus(id, if rows != [] then Completed else Failed)))
  {
  }

  /** What the steps after the insert may do to upload `id`'s tables: set
      its status to `completed` or `failed`, append rows, nothing else; and
      `completed` only on a record that finished. */
  ghost predicate AfterInsertFrame<Row>(db1: Db<Row>, db': Db<Row>, id: nat, outcome: Outcome)
  {
    && id in db1.tables.uploads
    && db'.tables.nextId == db1.tables.nextId
    && db'.tables.uploads.Keys == db1.tables.uploads.Keys
    && (forall j :: j in db1.tables.uploads && j != id ==> db'.tables.uploads[j] == db1.tables.uploads[j])
    && db1.tables.rows <= db'.tables.rows
    && db'.tables.uploads[id].status in {db1.tables.uploads[id].status, Failed, Completed}
    && (db'.tables.uploads[id].status == Completed ==> outcome == Finished)
  }

  lemma MarkFailedFrame<Row>(ok: nat -> bool, db1: Db<Row>, id: nat)
    requires id in db1.tables.uploads && db1.tables.uploads[id].status != Completed
    ensures var (db', outcome) := MarkFailed(ok, db1, id); AfterInsertFrame(db1, db', id, outcome)
  {
  }

  lemma ConcludeFrame<Row>(ok: nat -> bool, db1: Db<Row>, id: nat, s: Status)
    requires id in db1.tables.uploads && db1.tables.uploads[id].status != Completed
    requires s == Completed || s == Failed
    ensures var (db', outcome) := Conclude(ok, db1, id, s); AfterInsertFrame(db1, db', id, outcome)
  {
    if !ok(db1.attempts) {
      MarkFailedFrame(ok, Db(db1.tables, db1.attempts + 1), id);
    }
  }

  lemma AfterInsertKeepsFrame<Row>(ok: nat -> bool, db1: Db<Row>, id: nat, rows: seq<Row>)
    requires id in db1.tables.uploads && db1.tables.uploads[id].status == Processing
    ensures var (db', outcome) := AfterInsert(ok, db1, id, rows); AfterInsertFrame(db1, db', id, outcome)
  {
    if rows != [] {
      if !ok(db1.attempts) {
        MarkFailedFrame(ok, Db(db1.tables, db1.attempts + 1), id);
      } else {
        ConcludeFrame(ok, Db(db1.tables.(rows := db1.tables.rows + rows), db1.attempts + 1), id, Completed);
      }
    } else {
      ConcludeFrame(ok, db1, id, Failed);
    }
  }

  /** No record touches an earlier upload or an earlier row: uploads only
      appear, at the next key, and rows are only appended. A new upload is
      never left `pending`, and it is `completed` only when its record
      finished. */
  ghost predicate StepFrame<Row>(db: Db<Row>, db': Db<Row>, outcome: Outcome)
  {
    && KeysBelowNext(db'.tables)
    && db'.tables.nextId >= db.tables.nextId
    && (forall id :: id in db.tables.uploads ==>
          id in db'.tables.uploads && db'.tables.uploads[id] == db.tables.uploads[id])
    && db'.tables.uploads.Keys <= db.tables.uploads.Keys + {db.tables.nextId}
    && db.tables.rows <= db'.tables.rows
    && (db.tables.nextId in db'.tables.uploads ==>
          && db'.tables.uploads[db.tables.nextId].status != Pending
          && (db'.tables.uploads[db.tables.nextId].status == Completed ==> outcome == Finished))
  }
}
