/** worker/lambda_function.py: the SQS-triggered handler that downloads each
    uploaded CSV, records an upload row, runs the worker's analysis and
    stores its results. */
module WorkerHandler {
  import opened Wrappers
  import opened TextNormalizer
  import opened Strings
  import opened TopicModel
  import opened Sentiment
  import opened Chat
  import opened Pipeline
  import opened Store
  import opened SqsBatch
  import WorkerAnalysis

  /** A row of `analysis_results` in the worker's schema. */
  datatype ResultRow = ResultRow(
    uploadId: nat,
    topic: string,
    summary: string,
    sentimentScore: real,
    reviewCount: nat,
    sentimentDetails: Polarity)

  /** Everything the handler calls but does not define. */
  datatype Env = Env(
    cc: CharClasses,
    fit: seq<string> -> Option<Fitted>,
    polarity: string -> Polarity,
    client: Client,
    /** `urllib.parse.unquote_plus`. */
    unquote: string -> string,
    /** The download of (bucket, key) to a local path. */
    download: (string, string, string) -> Fetched,
    /** What `process_feedback_file` returns for a downloaded table; Wired
        says it is the worker's own analysis. */
    analyze: Option<Frame> -> Option<seq<TopicResult>>)

  /** The handler's `process_feedback_file` is the worker's pipeline run with
      the handler's libraries. The properties below hold for any analysis;
      the methods require this one. */
  ghost predicate Wired(env: Env)
  {
    forall file :: env.analyze(file) == Analyze(env.cc, file, WorkerAnalysis.WorkerLibraries(env.fit, env.polarity, env.cc, env.client))
  }

  datatype KeyParts = KeyParts(userId: int, filename: string)

  // ---------------------------------------------------------------------
  // Keys and paths

  /** `user_id_str, actual_filename = file_key.split('/', 1)` then
      `int(user_id_str)`; None where either raises. */
  function ParseKey(key: string): Option<KeyParts>
  {
    if '/' !in key then None
    else
      var i := IndexOf(key, '/');
      match ParseInt(key[..i])
      case None => None
      case Some(n) => Some(KeyParts(n, key[i + 1..]))
  }

  /** A key built from a user id and any file name, slashes included,
      parses back into both. */
  lemma ParseKeyOfComposedKey(userId: int, filename: string)
    ensures ParseKey(IntToString(userId) + "/" + filename) == Some(KeyParts(userId, filename))
  {
    var prefix := IntToString(userId);
    var key := prefix + "/" + filename;
    ParseIntToString(userId);
    assert '/' !in prefix by {
      if '/' in prefix {
        var k :| 0 <= k < |prefix| && prefix[k] == '/';
        IntToStringChars(userId, k);
      }
    }
    IndexOfAfter(prefix, '/', filename);
    assert key[..|prefix|] == prefix;
    assert key[|prefix| + 1..] == filename;
  }

  lemma IntToStringChars(n: int, k: nat)
    requires k < |IntToString(n)|
    ensures IntToString(n)[k] == '-' || IsDigit(IntToString(n)[k])
  {
    var d := Decimal(if n < 0 then -n else n);
    if n < 0 {
      assert IntToString(n) == "-" + d;
      if k > 0 {
        assert IntToString(n)[k] == d[k - 1];
      }
    }
  }

  /** A parsed key is the user id's digits, the first '/', then the file
      name. */
  lemma ParsedKeyShape(key: string)
    ensures ParseKey(key).Some? ==>
      var p := ParseKey(key).value;
      var cut := |key| - |p.filename| - 1;
      && 0 <= cut && key[cut] == '/' && '/' !in key[..cut]
      && key[cut + 1..] == p.filename
      && ParseInt(key[..cut]) == Some(p.userId)
  {
  }

  // ---------------------------------------------------------------------
  // Results to rows

  /** `AnalysisResult(upload_id=..., topic=top_words, summary=ai_summary,
      sentiment_score=avg_sentiment, review_count=..., sentiment_details=sentiment_dict)`. */
  function ToRow(r: TopicResult, uploadId: nat): ResultRow
  {
    ResultRow(uploadId, r.topWords, r.aiSummary, r.avgSentiment, r.reviewCount, r.sentimentDict)
  }

  function ResultRows(rs: seq<TopicResult>, uploadId: nat): seq<ResultRow>
  {
    seq(|rs|, i requires 0 <= i < |rs| => ToRow(rs[i], uploadId))
  }

  /** One row per result, in order, all pointing at the upload, each
      carrying its result's label, summary, average, count and dictionary. */
  lemma ResultRowsMirrorResults(rs: seq<TopicResult>, uploadId: nat)
    ensures var rows := ResultRows(rs, uploadId);
      && |rows| == |rs|
      && forall i :: 0 <= i < |rs| ==>
           && rows[i].uploadId == uploadId
           && rows[i].topic == rs[i].topWords
           && rows[i].summary == rs[i].aiSummary
           && rows[i].sentimentScore == rs[i].avgSentiment
           && rows[i].reviewCount == rs[i].reviewCount
           && rows[i].sentimentDetails == rs[i].sentimentDict
  {
  }

  // ---------------------------------------------------------------------
  // The handler, as a specification

  /** The rows `save_results_to_db` writes for what the analysis returned:
      none when it returned None. */
  function SavedRows(results: Option<seq<TopicResult>>, id: nat): (rows: seq<ResultRow>)
    ensures rows != [] <==> results.Some? && results.value != []
  {
    if results.Some? then ResultRows(results.value, id) else []
  }

  /** One turn of the record loop, with the upload row holding the user id. */
  function RecordStep(env: Env, ok: nat -> bool, db: Db<ResultRow>, rec: SqsRecord): (Db<ResultRow>, Outcome)
  {
    match rec
    case Malformed => (db, Aborted)
    case Notification(bucket, rawKey) =>
      var key := env.unquote(rawKey);
      match ParseKey(key)
      case None => (db, Skipped)
      case Some(parts) =>
        match env.download(bucket, key, DownloadPath(key))
        case DownloadFailed => (db, Aborted)
        case Downloaded(table) =>
          var upload := Upload(parts.filename, Processing, Some(parts.userId));
          if !ok(db.attempts) then (Db(db.tables, db.attempts + 2), Aborted)
          else
            var id := db.tables.nextId;
            AfterInsert(ok, Db(Apply(db.tables, Insert(upload)), db.attempts + 1), id, SavedRows(env.analyze(table), id))
  }

  /** The loop body of `lambda_handler`, as the step of the record loop. */
  function Step(env: Env, ok: nat -> bool): (Db<ResultRow>, SqsRecord) -> (Db<ResultRow>, Outcome)
  {
    (db: Db<ResultRow>, rec: SqsRecord) => RecordStep(env, ok, db, rec)
  }

  // ---------------------------------------------------------------------
  // The handler, step by step

  /** `save_results_to_db`: stage one row per result, commit them together;
      on failure roll back (the caller sees the exception as `ok == false`). */
  method SaveResultsToDb(db: Database<ResultRow>, results: seq<TopicResult>, uploadId: nat) returns (ok: bool)
    requires db.pending == []
    modifies db
    ensures ok == db.commitOk(old(db.attempts)) && db.attempts == old(db.attempts) + 1
    ensures ok ==> db.tables == old(db.tables).(rows := old(db.tables).rows + ResultRows(results, uploadId))
    ensures !ok ==> db.tables == old(db.tables)
    ensures db.pending == []
  {
    for i := 0 to |results|
      invariant db.pending == Rows(ResultRows(results[..i], uploadId))
      invariant db.tables == old(db.tables) && db.attempts == old(db.attempts)
    {
      db.Stage(AddRow(ToRow(results[i], uploadId)));
      assert ResultRows(results[..i + 1], uploadId) == ResultRows(results[..i], uploadId) + [ToRow(results[i], uploadId)];
    }
    assert results[..|results|] == results;
    ApplyRows(db.tables, ResultRows(results, uploadId));
    ok := db.Commit();
    if !ok {
      db.Rollback();
    }
  }

  /** One turn of the record loop (with the upload row holding the user id). */
  method ProcessRecord(db: Database<ResultRow>, env: Env, rec: SqsRecord) returns (outcome: Outcome)
    requires db.pending == [] && Wired(env)
    modifies db
    ensures (Db(db.tables, db.attempts), outcome)
      == RecordStep(env, db.commitOk, Db(old(db.tables), old(db.attempts)), rec)
    ensures db.pending == []
  {
    if rec.Malformed? {
      return Aborted;
    }
    var key := env.unquote(rec.key);
    var parsed := ParseKey(key);
    if parsed.None? {
      return Skipped;
    }
    var downloadPath := DownloadPath(key);
    var fetched := env.download(rec.bucket, key, downloadPath);
    if fetched.DownloadFailed? {
      return Aborted;
    }
    var uploadId := db.tables.nextId;
    var ok := CreateUpload(db, Upload(parsed.value.filename, Processing, Some(parsed.value.userId)));
    if !ok {
      return Aborted;
    }
    outcome := AnalyseAndStore(db, env, uploadId, fetched.table);
  }

  /** The rest of the `try` block once upload `uploadId` is committed. */
  method AnalyseAndStore(db: Database<ResultRow>, env: Env, uploadId: nat, table: Option<Frame>) returns (outcome: Outcome)
    requires db.pending == [] && Wired(env)
    modifies db
    ensures (Db(db.tables, db.attempts), outcome)
      == AfterInsert(db.commitOk, Db(old(db.tables), old(db.attempts)), uploadId, SavedRows(env.analyze(table), uploadId))
    ensures db.pending == []
  {
    var results := WorkerAnalysis.ProcessFeedbackFile(env.cc, table, env.fit, env.polarity, env.client);
    outcome := StoreResults(db, uploadId, results);
  }

  /** What follows `process_feedback_file`: save the results and mark the
      upload `completed`, or mark it `failed` when there are none. */
  method StoreResults(db: Database<ResultRow>, uploadId: nat, results: Option<seq<TopicResult>>) returns (outcome: Outcome)
    requires db.pending == []
    modifies db
    ensures (Db(db.tables, db.attempts), outcome)
      == AfterInsert(db.commitOk, Db(old(db.tables), old(db.attempts)), uploadId, SavedRows(results, uploadId))
    ensures db.pending == []
  {
    if results.Some? && results.value != [] {
      var saved := SaveResultsToDb(db, results.value, uploadId);
      if !saved {
        outcome := FailUpload(db, uploadId);
        return;
      }
      outcome := SetFinalStatus(db, uploadId, Completed);
    } else {
      outcome := SetFinalStatus(db, uploadId, Failed);
    }
  }

  /** `lambda_handler`: the records in order, stopping at the first one that
      raises. */
  method LambdaHandler(db: Database<ResultRow>, env: Env, records: seq<SqsRecord>) returns (response: Response)
    requires db.pending == [] && Wired(env)
    modifies db
    ensures (Db(db.tables, db.attempts), response)
      == HandleAll(Step(env, db.commitOk), Db(old(db.tables), old(db.attempts)), records)
    ensures db.pending == []
  {
    var i := 0;
    while i < |records|
      invariant 0 <= i <= |records| && db.pending == []
      invariant HandleAll(Step(env, db.commitOk), Db(old(db.tables), old(db.attempts)), records)
        == HandleAll(Step(env, db.commitOk), Db(db.tables, db.attempts), records[i..])
    {
      assert records[i..][1..] == records[i + 1..];
      var outcome := ProcessRecord(db, env, records[i]);
      if outcome == Aborted {
        return Raised;
      }
      i := i + 1;
    }
    return Ok200;
  }

  // ---------------------------------------------------------------------
  // Properties of the handler

  /** A key without a '/' or with a prefix `int()` rejects: no download, no
      upload, nothing committed. */
  lemma SkippedRecordLeavesNoTrace(env: Env, ok: nat -> bool, db: Db<ResultRow>, bucket: string, rawKey: string)
    requires ParseKey(env.unquote(rawKey)).None?
    ensures RecordStep(env, ok, db, Notification(bucket, rawKey)) == (db, Skipped)
  {
  }

  /** What a record that finishes leaves behind: exactly one new upload, at
      the next key, with the key's file name and user id; `completed` with
      one row per result when the analysis produced results, `failed` with
      no rows when it produced None or []. */
  ghost predicate FinishedAsExpected(env: Env, db: Db<ResultRow>, db': Db<ResultRow>, rec: SqsRecord)
  {
    && rec.Notification?
    && var key := env.unquote(rec.key);
    && ParseKey(key).Some?
    && env.download(rec.bucket, key, DownloadPath(key)).Downloaded?
    && var p := ParseKey(key).value;
    && var results := env.analyze(env.download(rec.bucket, key, DownloadPath(key)).table);
    && var n := db.tables.nextId;
    && var reported := results.Some? && results.value != [];
    && db'.tables.uploads
         == db.tables.uploads[n := Upload(p.filename, if reported then Completed else Failed, Some(p.userId))]
    && db'.tables.rows == db.tables.rows + (if reported then ResultRows(results.value, n) else [])
    && db'.tables.nextId == n + 1
  }

  lemma FinishedRecordAddsOneUpload(env: Env, ok: nat -> bool, db: Db<ResultRow>, rec: SqsRecord)
    ensures var (db', outcome) := RecordStep(env, ok, db, rec);
      outcome == Finished ==> FinishedAsExpected(env, db, db', rec)
  {
  }

  lemma RecordStepFrame(env: Env, ok: nat -> bool, db: Db<ResultRow>, rec: SqsRecord)
    requires KeysBelowNext(db.tables)
    ensures var (db', outcome) := RecordStep(env, ok, db, rec); StepFrame(db, db', outcome)
  {
    if rec.Notification? {
      var key := env.unquote(rec.key);
      var fetched := env.download(rec.bucket, key, DownloadPath(key));
      if ParseKey(key).Some? && fetched.Downloaded? && ok(db.attempts) {
        var p := ParseKey(key).value;
        var u := Upload(p.filename, Processing, Some(p.userId));
        InsertTakesNextKey(db.tables, u);
        var id := db.tables.nextId;
        var db1 := Db(Apply(db.tables, Insert(u)), db.attempts + 1);
        var rows := SavedRows(env.analyze(fetched.table), id);
        assert RecordStep(env, ok, db, rec) == AfterInsert(ok, db1, id, rows);
        AfterInsertKeepsFrame(ok, db1, id, rows);
      }
    }
  }

  /** Every turn of this handler's loop keeps the frame of StepFrame, so
      (HandleAllKeepsHistory) no batch changes an earlier upload or row. */
  lemma WorkerStepsKeepFrame(env: Env, ok: nat -> bool)
    ensures StepsKeepFrame(Step(env, ok))
  {
    forall d: Db<ResultRow>, r: SqsRecord | KeysBelowNext(d.tables)
      ensures StepFrame(d, Step(env, ok)(d, r).0, Step(env, ok)(d, r).1)
    {
      RecordStepFrame(env, ok, d, r);
    }
  }

  /** With every commit going through, a notification whose key parses and
      whose object downloads finishes, adding one upload at the next key
      with the key's file name and user id and keeping every other upload. */
  lemma GoodRecordFinishes(env: Env, ok: nat -> bool, db: Db<ResultRow>, rec: SqsRecord)
    requires forall n :: ok(n)
    requires rec.Notification? && ParseKey(env.unquote(rec.key)).Some?
    requires env.download(rec.bucket, env.unquote(rec.key), DownloadPath(env.unquote(rec.key))).Downloaded?
    ensures var (db', outcome) := RecordStep(env, ok, db, rec);
      var n := db.tables.nextId;
      var p := ParseKey(env.unquote(rec.key)).value;
      && outcome == Finished
      && db'.tables.nextId == n + 1
      && db'.tables.uploads.Keys == db.tables.uploads.Keys + {n}
      && (forall j :: j in db.tables.uploads && j != n ==> db'.tables.uploads[j] == db.tables.uploads[j])
      && db'.tables.uploads[n].filename == p.filename
      && db'.tables.uploads[n].userId == Some(p.userId)
  {
    var key := env.unquote(rec.key);
    var p := ParseKey(key).value;
    var fetched := env.download(rec.bucket, key, DownloadPath(key));
    var n := db.tables.nextId;
    var db1 := Db(Apply(db.tables, Insert(Upload(p.filename, Processing, Some(p.userId)))), db.attempts + 1);
    var rows := SavedRows(env.analyze(fetched.table), n);
    assert RecordStep(env, ok, db, rec) == AfterInsert(ok, db1, n, rows);
    AfterInsertOutcome(ok, db1, n, rows);
  }

  /** Nothing looks for an earlier upload of the same object: when every
      commit succeeds, delivering a notification twice records two uploads. */
  lemma RedeliveryCreatesSecondUpload(env: Env, ok: nat -> bool, db: Db<ResultRow>, rec: SqsRecord)
    requires forall n :: ok(n)
    requires rec.Notification? && ParseKey(env.unquote(rec.key)).Some?
    requires env.download(rec.bucket, env.unquote(rec.key), DownloadPath(env.unquote(rec.key))).Downloaded?
    ensures HandleAll(Step(env, ok), db, [rec, rec]).1 == Ok200
    ensures var db' := HandleAll(Step(env, ok), db, [rec, rec]).0;
      var n := db.tables.nextId;
      var p := ParseKey(env.unquote(rec.key)).value;
      && n in db'.tables.uploads && n + 1 in db'.tables.uploads
      && db'.tables.uploads[n].filename == db'.tables.uploads[n + 1].filename == p.filename
      && db'.tables.uploads[n].userId == db'.tables.uploads[n + 1].userId == Some(p.userId)
  {
    var step := Step(env, ok);
    var db1 := RecordStep(env, ok, db, rec).0;
    GoodRecordFinishes(env, ok, db, rec);
    GoodRecordFinishes(env, ok, db1, rec);
    assert step(db, rec) == RecordStep(env, ok, db, rec);
    assert step(db1, rec) == RecordStep(env, ok, db1, rec);
    assert [rec, rec][1..] == [rec];
    assert HandleAll(step, db, [rec, rec]) == HandleAll(step, db1, [rec]);
    var db2 := RecordStep(env, ok, db1, rec).0;
    assert HandleAll(step, db1, [rec]) == (db2, Ok200);
    var n := db.tables.nextId;
    var p := ParseKey(env.unquote(rec.key)).value;
    assert n in db1.tables.uploads && db1.tables.nextId == n + 1;
    assert db1.tables.uploads[n].filename == p.filename && db1.tables.uploads[n].userId == Some(p.userId);
    assert db2.tables.uploads[n] == db1.tables.uploads[n];
  }

  // ---------------------------------------------------------------------
  // The record loop against the `uploads` table as worker/models.py declares it

  /** One turn of the record loop as the code stands against worker/models.py,
      whose `Upload` has no `user_id` column: the declarative constructor
      rejects the keyword with a TypeError before `upload_record` is bound,
      so the `except` block only rolls back and re-raises. */
  function RecordStepAsWritten(env: Env, db: Db<ResultRow>, rec: SqsRecord): (Db<ResultRow>, Outcome)
  {
    match rec
    case Malformed => (db, Aborted)
    case Notification(bucket, rawKey) =>
      var key := env.unquote(rawKey);
      match ParseKey(key)
      case None => (db, Skipped)
      case Some(_) =>
        // the download raises, or the upload constructor does
        (db, Aborted)
  }

  function StepAsWritten(env: Env): (Db<ResultRow>, SqsRecord) -> (Db<ResultRow>, Outcome)
  {
    (db: Db<ResultRow>, rec: SqsRecord) => RecordStepAsWritten(env, db, rec)
  }

  /** As written, no batch ever records anything, and a batch succeeds only
      when every record in it is skipped. */
  lemma {:induction false} AsWrittenNothingIsRecorded(env: Env, db: Db<ResultRow>, records: seq<SqsRecord>)
    decreases |records|
    ensures HandleAll(StepAsWritten(env), db, records).0 == db
    ensures HandleAll(StepAsWritten(env), db, records).1 == Ok200 <==>
      forall i :: 0 <= i < |records| ==>
        records[i].Notification? && ParseKey(env.unquote(records[i].key)).None?
  {
    if records != [] {
      AsWrittenNothingIsRecorded(env, db, records[1..]);
      var allSkipped := forall i :: 0 <= i < |records| ==>
        records[i].Notification? && ParseKey(env.unquote(records[i].key)).None?;
      if allSkipped {
        assert forall i :: 0 <= i < |records| - 1 ==> records[1..][i] == records[i + 1];
      } else if records[0].Notification? && ParseKey(env.unquote(records[0].key)).None? {
        var i :| 0 <= i < |records| && !(records[i].Notification? && ParseKey(env.unquote(records[i].key)).None?);
        assert records[1..][i - 1] == records[i];
      }
    }
  }

  lemma KeyOfUser7Parses()
    ensures ParseKey("7/r.csv") == Some(KeyParts(7, "r.csv"))
  {
    assert IntToString(7) == "7";
    ParseKeyOfComposedKey(7, "r.csv");
    assert "7" + "/" + "r.csv" == "7/r.csv";
  }

  /** As written, a notification whose key parses and whose object
      downloads makes the batch raise with nothing stored; with the column in
      place (RecordStep) and working commits, the same record finishes and
      records an upload for the key's user. */
  lemma UserIdKeywordLosesUpload(env: Env, ok: nat -> bool, db: Db<ResultRow>, rec: SqsRecord)
    requires forall n :: ok(n)
    requires rec.Notification? && ParseKey(env.unquote(rec.key)).Some?
    requires env.download(rec.bucket, env.unquote(rec.key), DownloadPath(env.unquote(rec.key))).Downloaded?
    ensures HandleAll(StepAsWritten(env), db, [rec]) == (db, Raised)
    ensures HandleAll(Step(env, ok), db, [rec]).1 == Ok200
    ensures var db' := HandleAll(Step(env, ok), db, [rec]).0;
      var p := ParseKey(env.unquote(rec.key)).value;
      && db.tables.nextId in db'.tables.uploads
      && db'.tables.uploads[db.tables.nextId].filename == p.filename
      && db'.tables.uploads[db.tables.nextId].userId == Some(p.userId)
  {
    assert StepAsWritten(env)(db, rec) == (db, Aborted);
    GoodRecordFinishes(env, ok, db, rec);
    var step := Step(env, ok);
    assert step(db, rec) == RecordStep(env, ok, db, rec);
    assert HandleAll(step, db, [rec]) == (RecordStep(env, ok, db, rec).0, Ok200);
  }

  /** The input that shows it: a notification for "7/r.csv" whose
      object downloads. As written the batch raises and nothing is stored;
      with the column in place the same record, with working commits,
      finishes and records an upload for user 7. */
  lemma UserIdKeywordLosesEveryUpload(env: Env, ok: nat -> bool, db: Db<ResultRow>, bucket: string)
    requires forall n :: ok(n)
    requires env.unquote("7/r.csv") == "7/r.csv"
    requires env.download(bucket, "7/r.csv", DownloadPath("7/r.csv")).Downloaded?
    ensures HandleAll(StepAsWritten(env), db, [Notification(bucket, "7/r.csv")]) == (db, Raised)
    ensures HandleAll(Step(env, ok), db, [Notification(bucket, "7/r.csv")]).1 == Ok200
    ensures var db' := HandleAll(Step(env, ok), db, [Notification(bucket, "7/r.csv")]).0;
      && db.tables.nextId in db'.tables.uploads
      && db'.tables.uploads[db.tables.nextId].filename == "r.csv"
      && db'.tables.uploads[db.tables.nextId].userId == Some(7)
  {
    KeyOfUser7Parses();
    UserIdKeywordLosesUpload(env, ok, db, Notification(bucket, "7/r.csv"));
  }
}
