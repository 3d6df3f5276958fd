/** backend/lambda_function.py: the backend's copy of the SQS-triggered
    handler. It keeps the whole object key as the file name, records no
    user, and writes rows in the backend's `analysis_results` schema. */
module BackendHandler {
  import opened Wrappers
  import opened TextNormalizer
  import opened TopicModel
  import opened Sentiment
  import opened Chat
  import opened Pipeline
  import opened Store
  import opened SqsBatch
  import BackendAnalysis

  /** The text `str(res.get("sentiment"))` yields: no result of this copy
      has a "sentiment" entry, so it is always the string of None. */
  const NoSentiment: string := "None"

  /** A row of `analysis_results` in the backend's schema. */
  datatype BackendRow = BackendRow(
    uploadId: nat,
    topic: string,
    summary: string,
    sentiment: string,
    sentimentScore: real,
    roadmapJson: Option<string>)

  /** Everything the handler calls but does not define. */
  datatype Env = Env(
    cc: CharClasses,
    fit: seq<string> -> Option<Fitted>,
    polarity: string -> Polarity,
    client: Client,
    /** The download of (bucket, key) to a local path. */
    download: (string, string, string) -> Fetched,
    /** What `process_feedback_file` returns for a downloaded table; Wired
        says it is the backend's own analysis. */
    analyze: Option<Frame> -> Option<seq<BackendAnalysis.BackendResult>>)

  /** The handler's `process_feedback_file` is the backend's pipeline run
      with the handler's libraries. The properties below hold for any
      analysis; the methods require this one. */
  ghost predicate Wired(env: Env)
  {
    forall file :: env.analyze(file)
      == BackendAnalysis.BackendAnalyze(env.cc, file, BackendAnalysis.BackendLibraries(env.fit, env.polarity, env.cc, env.client))
  }

  // ---------------------------------------------------------------------
  // Results to rows

  /** `AnalysisResult(upload_id=..., topic=top_words, summary=ai_summary,
      sentiment=str(None), sentiment_score=avg_sentiment, roadmap_json=None)`. */
  function ToRow(r: BackendAnalysis.BackendResult, uploadId: nat): BackendRow
  {
    BackendRow(uploadId, r.topWords, r.aiSummary, NoSentiment, r.avgSentiment, None)
  }

  function ResultRows(rs: seq<BackendAnalysis.BackendResult>, uploadId: nat): (rows: seq<BackendRow>)
    ensures |rows| == |rs|
  {
    seq(|rs|, i requires 0 <= i < |rs| => ToRow(rs[i], uploadId))
  }

  /** One row per result, in order, all pointing at the upload, each with its
      result's label, summary and average, the text "None" for the sentiment
      and no roadmap. */
  lemma ResultRowsMirrorResults(rs: seq<BackendAnalysis.BackendResult>, uploadId: nat)
    ensures var rows := ResultRows(rs, uploadId);
      && |rows| == |rs|
      && forall i :: 0 <= i < |rs| ==>
           && rows[i].uploadId == uploadId
           && rows[i].topic == rs[i].topWords
           && rows[i].summary == rs[i].aiSummary
           && rows[i].sentiment == NoSentiment
           && rows[i].sentimentScore == rs[i].avgSentiment
           && rows[i].roadmapJson.None?
  {
  }

  // ---------------------------------------------------------------------
  // The handler, as a specification

  /** The rows `save_results_to_db` writes for what the analysis returned:
      none when it returned None. */
  function SavedRows(results: Option<seq<BackendAnalysis.BackendResult>>, id: nat): (rows: seq<BackendRow>)
    ensures rows != [] <==> results.Some? && results.value != []
  {
    if results.Some? then ResultRows(results.value, id) else []
  }

  /** One turn of the record loop: no key parsing and no skip; the upload is
      named by the whole key. */
  function RecordStep(env: Env, ok: nat -> bool, db: Db<BackendRow>, rec: SqsRecord): (Db<BackendRow>, Outcome)
  {
    match rec
    case Malformed => (db, Aborted)
    case Notification(bucket, key) =>
      match env.download(bucket, key, DownloadPath(key))
      case DownloadFailed => (db, Aborted)
      case Downloaded(table) =>
        var upload := Upload(key, Processing, None);
        if !ok(db.attempts) then (Db(db.tables, db.attempts + 2), Aborted)
        else
            var id := db.tables.nextId;
            AfterInsert(ok, Db(Apply(db.tables, Insert(upload)), db.attempts + 1), id, SavedRows(env.analyze(table), id))
  }

  /** The loop body of `lambda_handler`, as the step of the record loop. */
  function Step(env: Env, ok: nat -> bool): (Db<BackendRow>, SqsRecord) -> (Db<BackendRow>, Outcome)
  {
    (db: Db<BackendRow>, rec: SqsRecord) => RecordStep(env, ok, db, rec)
  }

  // ---------------------------------------------------------------------
  // The handler, step by step

  /** `save_results_to_db`, in its own session: stage one row per result,
      commit them together; on failure roll back and re-raise. */
  method SaveResultsToDb(db: Database<BackendRow>, results: seq<BackendAnalysis.BackendResult>, uploadId: nat) returns (ok: bool)
    requires db.pending == []
    modifies db
    ensures ok == db.commitOk(old(db.attempts)) && db.attempts == old(db.attempts) + 1
    ensures ok ==> db.tables == old(db.tables).(rows := old(db.tables).rows + ResultRows(results, uploadId))
    ensures !ok ==> db.tables == old(db.tables)
    ensures db.pending == []
  {
    for i := 0 to |results|
      invariant db.pending == Rows(ResultRows(results[..i], uploadId))
      invariant db.tables == old(db.tables) && db.attempts == old(db.attempts)
    {
      db.Stage(AddRow(ToRow(results[i], uploadId)));
      assert ResultRows(results[..i + 1], uploadId) == ResultRows(results[..i], uploadId) + [ToRow(results[i], uploadId)];
    }
    assert results[..|results|] == results;
    ApplyRows(db.tables, ResultRows(results, uploadId));
    ok := db.Commit();
    if !ok {
      db.Rollback();
    }
  }

  /** The rest of the `try` block once upload `uploadId` is committed. */
  method AnalyseAndStore(db: Database<BackendRow>, env: Env, uploadId: nat, table: Option<Frame>) returns (outcome: Outcome)
    requires db.pending == [] && Wired(env)
    modifies db
    ensures (Db(db.tables, db.attempts), outcome)
      == AfterInsert(db.commitOk, Db(old(db.tables), old(db.attempts)), uploadId, SavedRows(env.analyze(table), uploadId))
    ensures db.pending == []
  {
    var results := BackendAnalysis.ProcessFeedbackFile(env.cc, table, env.fit, env.polarity, env.client);
    outcome := StoreResults(db, uploadId, results);
  }

  /** What follows `process_feedback_file`: save the results and mark the
      upload `completed`, or mark it `failed` when there are none. */
  method StoreResults(db: Database<BackendRow>, uploadId: nat, results: Option<seq<BackendAnalysis.BackendResult>>) returns (outcome: Outcome)
    requires db.pending == []
    modifies db
    ensures (Db(db.tables, db.attempts), outcome)
      == AfterInsert(db.commitOk, Db(old(db.tables), old(db.attempts)), uploadId, SavedRows(results, uploadId))
    ensures db.pending == []
  {
    if results.Some? && results.value != [] {
      var saved := SaveResultsToDb(db, results.value, uploadId);
      if !saved {
        outcome := FailUpload(db, uploadId);
        return;
      }
      outcome := SetFinalStatus(db, uploadId, Completed);
    } else {
      outcome := SetFinalStatus(db, uploadId, Failed);
    }
  }

  /** One turn of the record loop. */
  method ProcessRecord(db: Database<BackendRow>, env: Env, rec: SqsRecord) returns (outcome: Outcome)
    requires db.pending == [] && Wired(env)
    modifies db
    ensures (Db(db.tables, db.attempts), outcome)
      == RecordStep(env, db.commitOk, Db(old(db.tables), old(db.attempts)), rec)
    ensures db.pending == []
  {
    if rec.Malformed? {
      return Aborted;
    }
    var downloadPath := DownloadPath(rec.key);
    var fetched := env.download(rec.bucket, rec.key, downloadPath);
    if fetched.DownloadFailed? {
      return Aborted;
    }
    var uploadId := db.tables.nextId;
    var ok := CreateUpload(db, Upload(rec.key, Processing, None));
    if !ok {
      return Aborted;
    }
    outcome := AnalyseAndStore(db, env, uploadId, fetched.table);
  }

  /** `lambda_handler`: the records in order, stopping at the first one that
      raises. */
  method LambdaHandler(db: Database<BackendRow>, env: Env, records: seq<SqsRecord>) returns (response: Response)
    requires db.pending == [] && Wired(env)
    modifies db
    ensures (Db(db.tables, db.attempts), response)
      == HandleAll(Step(env, db.commitOk), Db(old(db.tables), old(db.attempts)), records)
    ensures db.pending == []
  {
    var i := 0;
    while i < |records|
      invariant 0 <= i <= |records| && db.pending == []
      invariant HandleAll(Step(env, db.commitOk), Db(old(db.tables), old(db.attempts)), records)
        == HandleAll(Step(env, db.commitOk), Db(db.tables, db.attempts), records[i..])
    {
      assert records[i..][1..] == records[i + 1..];
      var outcome := ProcessRecord(db, env, records[i]);
      if outcome == Aborted {
        return Raised;
      }
      i := i + 1;
    }
    return Ok200;
  }

  // ---------------------------------------------------------------------
  // Properties of the handler

  /** This copy never skips a record: every record finishes or raises. */
  lemma NoRecordIsSkipped(env: Env, ok: nat -> bool, db: Db<BackendRow>, rec: SqsRecord)
    ensures RecordStep(env, ok, db, rec).1 != Skipped
  {
    match rec
    case Malformed =>
    case Notification(bucket, key) =>
      var fetched := env.download(bucket, key, DownloadPath(key));
      if fetched.Downloaded? && ok(db.attempts) {
        var id := db.tables.nextId;
        var db1 := Db(Apply(db.tables, Insert(Upload(key, Processing, None))), db.attempts + 1);
        var rows := SavedRows(env.analyze(fetched.table), id);
        assert RecordStep(env, ok, db, rec) == AfterInsert(ok, db1, id, rows);
        AfterInsertOutcome(ok, db1, id, rows);
      }
  }

  /** What a record that finishes leaves behind: exactly one new upload, at
      the next key, named by the whole object key, with no user;
      `completed` with one row per result when the analysis produced
      results, `failed` with no rows when it produced None or []. */
  ghost predicate FinishedAsExpected(env: Env, db: Db<BackendRow>, db': Db<BackendRow>, rec: SqsRecord)
  {
    && rec.Notification?
    && env.download(rec.bucket, rec.key, DownloadPath(rec.key)).Downloaded?
    && var results := env.analyze(env.download(rec.bucket, rec.key, DownloadPath(rec.key)).table);
    && var n := db.tables.nextId;
    && var reported := results.Some? && results.value != [];
    && db'.tables.uploads
         == db.tables.uploads[n := Upload(rec.key, if reported then Completed else Failed, None)]
    && db'.tables.rows == db.tables.rows + (if reported then ResultRows(results.value, n) else [])
    && db'.tables.nextId == n + 1
  }

  lemma FinishedRecordAddsOneUpload(env: Env, ok: nat -> bool, db: Db<BackendRow>, rec: SqsRecord)
    ensures var (db', outcome) := RecordStep(env, ok, db, rec);
      outcome == Finished ==> FinishedAsExpected(env, db, db', rec)
  {
  }

  lemma RecordStepFrame(env: Env, ok: nat -> bool, db: Db<BackendRow>, rec: SqsRecord)
    requires KeysBelowNext(db.tables)
    ensures var (db', outcome) := RecordStep(env, ok, db, rec); StepFrame(db, db', outcome)
  {
    if rec.Notification? {
      var fetched := env.download(rec.bucket, rec.key, DownloadPath(rec.key));
      if fetched.Downloaded? && ok(db.attempts) {
        var u := Upload(rec.key, Processing, None);
        InsertTakesNextKey(db.tables, u);
        var id := db.tables.nextId;
        var db1 := Db(Apply(db.tables, Insert(u)), db.attempts + 1);
        var rows := SavedRows(env.analyze(fetched.table), id);
        assert RecordStep(env, ok, db, rec) == AfterInsert(ok, db1, id, rows);
        AfterInsertKeepsFrame(ok, db1, id, rows);
      }
    }
  }

  /** Every turn of this handler's loop keeps the frame of StepFrame, so
      (HandleAllKeepsHistory) no batch changes an earlier upload or row. */
  lemma BackendStepsKeepFrame(env: Env, ok: nat -> bool)
    ensures StepsKeepFrame(Step(env, ok))
  {
    forall d: Db<BackendRow>, r: SqsRecord | KeysBelowNext(d.tables)
      ensures StepFrame(d, Step(env, ok)(d, r).0, Step(env, ok)(d, r).1)
    {
      RecordStepFrame(env, ok, d, r);
    }
  }

  /** With every commit going through, a notification whose object downloads
      finishes, adding one upload at the next key named by the whole key and
      keeping every other upload. */
  lemma GoodRecordFinishes(env: Env, ok: nat -> bool, db: Db<BackendRow>, rec: SqsRecord)
    requires forall n :: ok(n)
    requires rec.Notification? && env.download(rec.bucket, rec.key, DownloadPath(rec.key)).Downloaded?
    ensures RecordStep(env, ok, db, rec).1 == Finished
    ensures var db' := RecordStep(env, ok, db, rec).0;
      var n := db.tables.nextId;
      && db'.tables.nextId == n + 1
      && db'.tables.uploads.Keys == db.tables.uploads.Keys + {n}
      && (forall j :: j in db.tables.uploads && j != n ==> db'.tables.uploads[j] == db.tables.uploads[j])
      && db'.tables.uploads[n].filename == rec.key
      && db'.tables.uploads[n].userId.None?
  {
    var fetched := env.download(rec.bucket, rec.key, DownloadPath(rec.key));
    var n := db.tables.nextId;
    var db1 := Db(Apply(db.tables, Insert(Upload(rec.key, Processing, None))), db.attempts + 1);
    var rows := SavedRows(env.analyze(fetched.table), n);
    assert RecordStep(env, ok, db, rec) == AfterInsert(ok, db1, n, rows);
    AfterInsertOutcome(ok, db1, n, rows);
  }

  /** Nothing looks for an earlier upload of the same object: when every
      commit succeeds, delivering a notification twice records two uploads,
      both named by the key. */
  lemma RedeliveryCreatesSecondUpload(env: Env, ok: nat -> bool, db: Db<BackendRow>, rec: SqsRecord)
    requires forall n :: ok(n)
    requires rec.Notification? && env.download(rec.bucket, rec.key, DownloadPath(rec.key)).Downloaded?
    ensures HandleAll(Step(env, ok), db, [rec, rec]).1 == Ok200
    ensures var db' := HandleAll(Step(env, ok), db, [rec, rec]).0;
      var n := db.tables.nextId;
      && n in db'.tables.uploads && n + 1 in db'.tables.uploads
      && db'.tables.uploads[n].filename == db'.tables.uploads[n + 1].filename == rec.key
  {
    var step := Step(env, ok);
    var db1 := RecordStep(env, ok, db, rec).0;
    GoodRecordFinishes(env, ok, db, rec);
    GoodRecordFinishes(env, ok, db1, rec);
    assert step(db, rec) == RecordStep(env, ok, db, rec);
    assert step(db1, rec) == RecordStep(env, ok, db1, rec);
    assert [rec, rec][1..] == [rec];
    assert HandleAll(step, db, [rec, rec]) == HandleAll(step, db1, [rec]);
    var db2 := RecordStep(env, ok, db1, rec).0;
    assert HandleAll(step, db1, [rec]) == (db2, Ok200);
    var n := db.tables.nextId;
    assert n in db1.tables.uploads && db1.tables.nextId == n + 1;
    assert db1.tables.uploads[n].filename == rec.key;
    assert db2.tables.uploads[n] == db1.tables.uploads[n];
  }
}
