/** What both SQS-triggered handlers share: the shape of a record, the
    download of the object it names, and the loop over a batch, which stops
    at the first record that raises. */
module SqsBatch {
  import opened Wrappers
  import opened Strings
  import opened Pipeline
  import opened Store

  /** One SQS record: a body that is not the expected S3 event (the JSON
      parse or a key lookup raises), or a notification for an object. */
  datatype SqsRecord = Malformed | Notification(bucket: string, key: string)

  /** `s3_client.download_file`: it raises, or it leaves a file, which
      `read_csv` turns into a table or fails on. */
  datatype Fetched = DownloadFailed | Downloaded(table: Option<Frame>)

  /** The handler returns status code 200, or raises. */
  datatype Response = Ok200 | Raised

  // ---------------------------------------------------------------------
  // Download paths

  /** The text after the key's last '/': `os.path.basename(key)` in one
      copy, `key.split("/")[-1]` in the other, which agree on every key. */
  function BaseName(key: string): string
  {
    var parts := Split(key, '/');
    parts[|parts| - 1]
  }

  /** The file under `/tmp/` the object is downloaded to. */
  function DownloadPath(key: string): string
  {
    "/tmp/" + BaseName(key)
  }

  /** The base name is the key's last segment: a suffix without '/',
      preceded by a '/' unless it is the whole key. */
  lemma BaseNameIsLastSegment(key: string)
    ensures var b := BaseName(key);
      && '/' !in b && |b| <= |key|
      && key[|key| - |b|..] == b
      && (|b| < |key| ==> key[|key| - |b| - 1] == '/')
  {
    var parts := Split(key, '/');
    SplitPiecesFree(key, '/');
    JoinSplit(key, '/');
    JoinLast(parts, "/");
  }

  // ---------------------------------------------------------------------
  // The record loop

  /** `for record in event['Records']: ...` then `return {'statusCode': 200}`:
      each record is one `step`; the first that raises ends the batch. */
  function HandleAll<S>(step: (S, SqsRecord) -> (S, Outcome), s: S, records: seq<SqsRecord>): (S, Response)
    decreases |records|
  {
    if records == [] then (s, Ok200)
    else
      var (s1, outcome) := step(s, records[0]);
      if outcome == Aborted then (s1, Raised) else HandleAll(step, s1, records[1..])
  }

  /** How each record ended, up to and including the first that raised. */
  function Outcomes<S>(step: (S, SqsRecord) -> (S, Outcome), s: S, records: seq<SqsRecord>): seq<Outcome>
    decreases |records|
  {
    if records == [] then []
    else
      var (s1, outcome) := step(s, records[0]);
      [outcome] + (if outcome == Aborted then [] else Outcomes(step, s1, records[1..]))
  }

  /** The handler returns 200 exactly when no record raised; otherwise the
      record that raised is the last one looked at and the rest of the batch
      is abandoned. */
  lemma {:induction false} ResponseReflectsOutcomes<S>(step: (S, SqsRecord) -> (S, Outcome), s: S, records: seq<SqsRecord>)
    decreases |records|
    ensures var outcomes := Outcomes(step, s, records);
      && |outcomes| <= |records|
      && (HandleAll(step, s, records).1 == Ok200 <==> Aborted !in outcomes)
      && (HandleAll(step, s, records).1 == Ok200 ==> |outcomes| == |records|)
      && (HandleAll(step, s, records).1 == Raised ==>
            outcomes != [] && outcomes[|outcomes| - 1] == Aborted
            && Aborted !in outcomes[..|outcomes| - 1])
  {
    if records != [] {
      var (s1, outcome) := step(s, records[0]);
      if outcome != Aborted {
        ResponseReflectsOutcomes(step, s1, records[1..]);
        var rest := Outcomes(step, s1, records[1..]);
        assert Outcomes(step, s, records) == [outcome] + rest;
        if HandleAll(step, s1, records[1..]).1 == Raised {
          assert ([outcome] + rest)[..|rest|] == [outcome] + rest[..|rest| - 1];
        }
      }
    }
  }

  /** Every step, from tables whose keys lie below the next key, keeps the
      frame of StepFrame. */
  ghost predicate StepsKeepFrame<Row(!new)>(step: (Db<Row>, SqsRecord) -> (Db<Row>, Outcome))
  {
    forall d: Db<Row>, r: SqsRecord :: KeysBelowNext(d.tables) ==> StepFrame(d, step(d, r).0, step(d, r).1)
  }

  /** Over a whole batch, earlier uploads and rows are never changed. */
  lemma {:induction false} HandleAllKeepsHistory<Row(!new)>(step: (Db<Row>, SqsRecord) -> (Db<Row>, Outcome), db: Db<Row>, records: seq<SqsRecord>)
    requires KeysBelowNext(db.tables)
    requires StepsKeepFrame(step)
    decreases |records|
    ensures var db' := HandleAll(step, db, records).0;
      && KeysBelowNext(db'.tables)
      && (forall id :: id in db.tables.uploads ==>
            id in db'.tables.uploads && db'.tables.uploads[id] == db.tables.uploads[id])
      && db.tables.rows <= db'.tables.rows
  {
    if records != [] {
      var (db1, outcome) := step(db, records[0]);
      assert StepFrame(db, db1, outcome);
      if outcome != Aborted {
        HandleAllKeepsHistory(step, db1, records[1..]);
      }
    }
  }
}
