# ProductPulse analysis core in Dafny

ProductPulse takes a CSV file of customer reviews that a user uploads, finds
seven topics in the "Review Text" column, scores the sentiment of each topic,
asks a hosted language model (through OpenRouter) for a summary of each
topic, and stores one result row per topic against an `uploads` row whose
status moves from `processing` to `completed` or `failed`. The repository
holds two copies of the analysis (worker/worker.py and backend/worker.py).
It also holds two copies of the SQS-triggered handler that runs it
(worker/lambda_function.py and backend/lambda_function.py). A small set of
admin endpoints manages users and reports platform analytics
(backend/api/v1/admin.py), and a set-up script upserts a user
(backend/create_user.py).

The model keeps the source's structure:

- `TextNormalizer`: `clean_text`, with Python's `\w`, `\s` and
  `str.lower` as a parameter `CharClasses`.
- `Strings`, `TopicModel`, `Sentiment`, `Wrappers`: the list and text
  helpers. They cover `" ".join`, `str.split`, `int()`, the
  `argsort()[:-6:-1]` selection and the mean.
- `Pipeline`: the topic-result assembly both copies of
  `process_feedback_file` share (`Analyze`). The library calls are oracles
  in `Libraries`.
- `Chat`, `WorkerAnalysis`, `BackendAnalysis`: each copy's
  `get_ai_summary`, and its `process_feedback_file` as a method with the
  topic loop, proved equal to `Analyze`.
- `Store`: the `uploads` table, the result rows, and a SQLAlchemy session
  (`Database`) whose commits may fail. It also holds the commit discipline
  both handlers follow once an upload is committed.
- `SqsBatch`: what the two handlers share. That is the record shape, the
  download path, and the loop over a batch, which stops at the first record
  that raises.
- `WorkerHandler`, `BackendHandler`: each `lambda_handler` as methods over a
  `Database`, proved equal to a specification function per record. The
  analysis a handler runs is a field `analyze` of its environment. The
  methods require it to be that copy's own `process_feedback_file`
  (`Wired`), and the properties of the record step hold for any analysis.
- `Accounts`, `Admin`, `CreateUser`: the `users` table as a class, the admin
  endpoints as methods on it, the analytics as a function, and the
  set-up script's upsert.

Where the code and the design description of the system disagree, the model
follows the code:

- There is no idempotency check. A redelivered notification creates a
  second upload in the backend copy
  (`BackendHandler.RedeliveryCreatesSecondUpload`). The same holds for the
  worker copy once its `user_id` defect is corrected
  (`WorkerHandler.RedeliveryCreatesSecondUpload`, stated about the corrected
  step; see Findings).
- There is no allow-list for file names.
- An analysis that returns the empty list leaves the upload `failed`, not
  `completed`, because `if analysis_results:` treats `[]` as false.
- An empty vocabulary after pruning makes the vectoriser raise. That ends
  in `None` and a `failed` upload, not in an empty result list.
- A malformed record or a failed download raises out of the handler. This
  abandons the rest of the batch rather than only that record.
- Only the backend copy sends a system message to the summariser.
- The worker copy stores the `user_id` parsed from the key, which its own
  `Upload` class cannot hold (see Findings). The model of the worker's
  handler therefore records it in a `userId` field. The backend copy parses
  no user and records `None`.

## Model

| member | source | states |
|---|---|---|
| `TextNormalizer.CleanIsNormalized` | worker/worker.py:30-34 | The cleaned text has only lower-case word characters and single spaces, with no space at either end. Its word characters are exactly those of the lower-cased input, in order. A non-string cell cleans to "". |
| `TextNormalizer.NormalizedIsFixpoint` | worker/worker.py:31-34 | Text that is already normalised is returned unchanged. |
| `TextNormalizer.CleanIdempotent` | worker/worker.py:27-34 | Cleaning twice equals cleaning once. |
| `TextNormalizer.CleanEmptyIff` | worker/worker.py:30-34 | A cell cleans to "" exactly when it is not a string, or no character of it is a word character once lower-cased. |
| `TextNormalizer.StripTrims` | worker/worker.py:34 | `strip()` returns a contiguous piece of its input with only blanks removed before and after it. |
| `TextNormalizer.StripEnds` | worker/worker.py:56 | `strip()` returns "" or a text that neither starts nor ends with a blank. |
| `TopicModel.TopTermIndicesSpec` | worker/worker.py:94 | The selected indices are min(5, vocabulary size) distinct term indices, heaviest first, and no term left out weighs more than one selected. |
| `Sentiment.MeanWithin` | worker/worker.py:101-102 | The mean of scores within [lo, hi] lies within [lo, hi]. |
| `Pipeline.ModelingDocsInOrder` | worker/worker.py:72-75 | Each modelled document is a row whose cleaned text is non-empty. It carries that row's index, raw text and cleaned text, and documents come in increasing row order. |
| `Pipeline.ModelingDocsComplete` | worker/worker.py:72-75 | Every row whose cleaned text is non-empty is modelled. |
| `Pipeline.ModelingDocsCount` | worker/worker.py:75 | There is one document per row with non-empty cleaned text. |
| `Pipeline.TopicsPartitionDocs` | worker/worker.py:86-96 | The arg-max assignment puts every document in exactly one of the seven topics. |
| `Pipeline.InTopicMembers` | worker/worker.py:96 | A topic's documents are exactly the documents assigned to it. |
| `Pipeline.InTopicAscending` | worker/worker.py:96 | Grouping by topic keeps the row order. |
| `Pipeline.TakeEarliest` | worker/worker.py:105-109 | `head(n)` of a topic's documents is its n earliest rows. |
| `Pipeline.TopWordsAreHeaviestTerms` | worker/worker.py:94-95 | The label splits on " " back into the topic's heaviest terms: at most five, heaviest first, no heavier term omitted. |
| `Pipeline.TopicRecordDescribesTopic` | worker/worker.py:96-120 | A topic's record has its id, and a review count equal to the number of its documents (at least one). Its summary comes from the raw text of its ten earliest rows. Its sentiment dictionary comes from the joined cleaned text of its fifty earliest rows. |
| `Pipeline.TopicSentimentBounded` | worker/worker.py:100-102 | The topic's average sentiment lies in any range that holds every compound score. |
| `Pipeline.SelectedSpec` | worker/worker.py:93-98 | The topics the loop keeps come in strictly increasing order, and every kept topic below the bound is among them. |
| `Pipeline.TopicsBelowStep` | worker/worker.py:93-121 | Iteration `t` of the topic loop appends the topic's record when it has documents and nothing otherwise. |
| `Pipeline.TopicsBelowInOrder` | worker/worker.py:93-121 | The topic loop emits only populated topics, in strictly increasing topic order, each as its topic's record. |
| `Pipeline.TopicsBelowComplete` | worker/worker.py:93-98 | Every populated topic is reported; only empty topics are skipped. |
| `Pipeline.TopicsBelowCounts` | worker/worker.py:93-121 | The review counts of the records add up to the number of documents in the topics looped over. |
| `Pipeline.AnalyzeFailsIff` | worker/worker.py:65-128 | The analysis returns None exactly in two cases: the file is unreadable or lacks "Review Text", or text remains after cleaning and the vectoriser or LDA fails. |
| `Pipeline.EmptyCorpusSkipsLibraries` | worker/worker.py:75-76 | When every row cleans to "", the result is the empty list and no library is consulted. |
| `Pipeline.AnalyzeReportsTopics` | worker/worker.py:90-125 | A successful analysis of a non-empty corpus reports each populated topic once, in order. The review counts sum to the number of rows with text left after cleaning. |
| `Pipeline.AnalyzeEmptyIff` | worker/worker.py:75-76 | The result is the empty list exactly when the column exists and no row has text left after cleaning. |
| `Pipeline.SummarizerOnlyFillsSummaries` | worker/worker.py:111-121 | Two runs that differ only in the summariser fail together and agree on every field except the summaries. |
| `WorkerAnalysis.NoKeyNoRequest` | worker/worker.py:39 | Without an API key the summary is the fixed "OpenRouter API key not found." whatever the endpoint would answer. |
| `WorkerAnalysis.RequestCarriesFeedback` | worker/worker.py:41-55 | The request names the configured model and token limit, and has one user message. That message quotes the keywords and every review. |
| `WorkerAnalysis.SummaryFromReply` | worker/worker.py:48-58 | A reply's text is returned stripped. An API error gives "AI summary could not be generated due to an API error: " followed by the error text. |
| `WorkerAnalysis.ProcessFeedbackFile` | worker/worker.py:60-128 | The step-by-step topic loop returns exactly `Analyze` with the worker's summariser. |
| `WorkerAnalysis.NoKeyEverySummaryFixed` | worker/worker.py:37-39 | Without a key every record's summary is the fixed message. |
| `BackendAnalysis.PromptQuotesFeedback` | backend/worker.py:48-56 | The backend prompt quotes the keywords and every review. |
| `BackendAnalysis.RequestCarriesFeedback` | backend/worker.py:58-74 | The backend request has the fixed system message, then one user message with the prompt. |
| `BackendAnalysis.SummaryFromReply` | backend/worker.py:58-78 | A reply's text is returned stripped. Every API error, whatever its text, gives the same fixed message. |
| `BackendAnalysis.SlimAll` | backend/worker.py:125-128 | The backend records are the full records, one for one, without the sentiment dictionary. |
| `BackendAnalysis.SlimStep` | backend/worker.py:110-129 | One turn of the backend's topic loop appends the record of a populated topic and nothing for an empty one. |
| `BackendAnalysis.ProcessFeedbackFile` | backend/worker.py:81-136 | The backend's `process_feedback_file` returns `Analyze` without the sentiment dictionaries. |
| `BackendAnalysis.TopicLoop` | backend/worker.py:107-132 | The backend's step-by-step topic loop returns the slim record of each populated topic, in topic order. |
| `BackendAnalysis.CopiesAgree` | backend/worker.py:87-132 | On the same table and libraries, the two copies fail together and report the same topics, labels, counts and averages. |
| `Store.ApplyRows` | worker/lambda_function.py:14-24 | Committing the staged rows appends exactly those rows, in order, and leaves the uploads alone. |
| `Store.InsertTakesNextKey` | worker/lambda_function.py:61-63 | A new upload gets the next key and changes no other upload. |
| `Store.CreateUpload` | backend/lambda_function.py:58-84 | Adding and committing an upload stores it at the next key. When that commit fails, the `except` block writes nothing. |
| `Store.FailUpload` | worker/lambda_function.py:77-83 | The `except` block rolls back, then commits `failed` for the upload. |
| `Store.SetFinalStatus` | worker/lambda_function.py:69-75 | The closing commit stores the status. If it fails, the `except` block runs. |
| `Store.AfterInsertOutcome` | worker/lambda_function.py:67-83 | Once the upload is committed, a record is never skipped. It finishes exactly when the closing commit succeeds and, with rows to save, the save commit does too. A finished record leaves the rows appended and the upload `completed`, or no rows and the upload `failed`. |
| `Store.AfterInsertKeepsFrame` | worker/lambda_function.py:67-83 | After the insert, only the new upload's status changes, to `completed` or `failed`, and rows are only appended. |
| `SqsBatch.BaseNameIsLastSegment` | worker/lambda_function.py:55-56 | The download path is `/tmp/` plus the key's last segment: a suffix of the key with no '/' in it. |
| `SqsBatch.ResponseReflectsOutcomes` | worker/lambda_function.py:38-88 | The handler returns 200 exactly when no record raised. Otherwise the record that raised is the last one handled. |
| `SqsBatch.HandleAllKeepsHistory` | backend/lambda_function.py:44-88 | When every step keeps the frame, a batch never changes an earlier upload or result row. |
| `WorkerHandler.ParseKeyOfComposedKey` | worker/lambda_function.py:45-51 | A key built from a user id, "/" and any file name parses back into that id and name. |
| `WorkerHandler.ParsedKeyShape` | worker/lambda_function.py:46-48 | A parsed key is the id's text, the first '/', then the file name. |
| `Strings.ParseIntToString` | worker/lambda_function.py:48 | `int()` of a number's decimal text gives the number back, negative numbers included. |
| `WorkerHandler.ResultRowsMirrorResults` | worker/lambda_function.py:14-22 | There is one row per result, in order. Each row carries the upload id and its result's label, summary, average, count and dictionary. |
| `WorkerHandler.SaveResultsToDb` | worker/lambda_function.py:12-29 | Stages one row per result and commits once. On success the rows are appended; on failure nothing changes. |
| `WorkerHandler.SavedRows` | worker/lambda_function.py:69-70 | Rows are saved exactly when the analysis returned a non-empty list. |
| `WorkerHandler.AnalyseAndStore` | worker/lambda_function.py:67-83 | Analysis, save and status commit follow `Store.AfterInsert`, fed with the wired analysis of the table. |
| `WorkerHandler.StoreResults` | worker/lambda_function.py:69-83 | Saving the results and the closing status commit follow `AfterInsert` for those results. |
| `WorkerHandler.ProcessRecord` | worker/lambda_function.py:39-86 | One record is handled exactly as the specification step `RecordStep`, given the key's user id in the upload. |
| `WorkerHandler.LambdaHandler` | worker/lambda_function.py:32-88 | The loop over the batch equals `HandleAll` over the worker's step. |
| `WorkerHandler.SkippedRecordLeavesNoTrace` | worker/lambda_function.py:45-51 | A key whose user id does not parse is skipped: nothing is downloaded or written. |
| `WorkerHandler.FinishedRecordAddsOneUpload` | worker/lambda_function.py:58-75 | A finished record adds one upload at the next key, carrying the key's file name and user id. It is `completed` with one row per result when there were results, and otherwise `failed` with no rows. |
| `WorkerHandler.RecordStepFrame` | worker/lambda_function.py:38-86 | A record never changes an earlier upload or row, and never leaves its upload `pending`. It leaves the upload `completed` only when the record finished. |
| `WorkerHandler.WorkerStepsKeepFrame` | worker/lambda_function.py:38-88 | Every step of the worker's loop keeps that frame. |
| `WorkerHandler.GoodRecordFinishes` | worker/lambda_function.py:45-75 | With every commit succeeding, a notification whose key parses and whose object downloads finishes. It adds one upload at the next key, with the key's file name and user id, and keeps every other upload. |
| `WorkerHandler.RedeliveryCreatesSecondUpload` | worker/lambda_function.py:58-64 | With the `user_id` defect corrected, a notification delivered twice records two uploads for the same file and user. |
| `WorkerHandler.AsWrittenNothingIsRecorded` | worker/lambda_function.py:59-83 | As the code stands against worker/models.py, no batch records anything. A batch succeeds only when every record is skipped. |
| `WorkerHandler.UserIdKeywordLosesUpload` | worker/lambda_function.py:61 | For any key that parses and object that downloads, the code as written raises and records nothing. The corrected step records an upload for the key's user. |
| `WorkerHandler.UserIdKeywordLosesEveryUpload` | worker/lambda_function.py:61 | For key "7/r.csv", the code as written raises and records nothing. The corrected step records an upload for user 7. |
| `BackendHandler.ResultRowsMirrorResults` | backend/lambda_function.py:15-23 | There is one row per result, in order. Each carries the upload id, label, summary and average, the text "None" as sentiment, and no roadmap. |
| `BackendHandler.SaveResultsToDb` | backend/lambda_function.py:11-32 | Stages one row per result and commits once in its own session. On success the rows are appended; on failure nothing changes. |
| `BackendHandler.SavedRows` | backend/lambda_function.py:68-70 | Rows are saved exactly when the analysis returned a non-empty list. |
| `BackendHandler.AnalyseAndStore` | backend/lambda_function.py:65-84 | Analysis, save and status commit follow `Store.AfterInsert`, fed with the wired analysis of the table. |
| `BackendHandler.StoreResults` | backend/lambda_function.py:68-84 | Saving the results and the closing status commit follow `AfterInsert` for those results. |
| `BackendHandler.ProcessRecord` | backend/lambda_function.py:45-86 | One record is handled exactly as the backend's `RecordStep`. |
| `BackendHandler.LambdaHandler` | backend/lambda_function.py:34-88 | The loop over the batch equals `HandleAll` over the backend's step. |
| `BackendHandler.NoRecordIsSkipped` | backend/lambda_function.py:44-86 | The backend never skips a record: each one finishes or raises. |
| `BackendHandler.FinishedRecordAddsOneUpload` | backend/lambda_function.py:55-76 | A finished record adds one upload at the next key, named by the whole key and with no user. It is `completed` with its rows when there were results, and otherwise `failed`. |
| `BackendHandler.GoodRecordFinishes` | backend/lambda_function.py:45-76 | With every commit succeeding, a notification whose object downloads finishes. It adds one upload at the next key, named by the whole key and with no user, and keeps every other upload. |
| `BackendHandler.RedeliveryCreatesSecondUpload` | backend/lambda_function.py:55-63 | A notification delivered twice records two uploads, both named by the key; nothing looks for an earlier upload of the same object. |
| `BackendHandler.RecordStepFrame` | backend/lambda_function.py:44-86 | A record never changes an earlier upload or row. |
| `BackendHandler.BackendStepsKeepFrame` | backend/lambda_function.py:44-88 | Every step of the backend's loop keeps that frame. |
| `Accounts.FindFrom` | backend/api/v1/admin.py:25 | The scan returns the first key in range whose user has the email, or None when no key in range has it. |
| `Accounts.FindByEmail` | backend/create_user.py:20 | When the table's keys lie below the next key, the lookup finds a user exactly when one has the email, and then the one with the lowest key. |
| `Admin.SetAllUpdateData` | backend/api/v1/admin.py:49-51 | The `setattr` loop over the sent fields performs exactly the field-by-field partial update. |
| `Admin.UpdateIdempotent` | backend/api/v1/admin.py:49-55 | Repeating an update changes nothing more, and an update that sends no field changes nothing. |
| `Admin.CreateNewUser` | backend/api/v1/admin.py:22-39 | A taken email gives 400 "Email already registered" and changes nothing. A failed commit gives 500 and changes nothing. Otherwise exactly one user is added, with the given fields and the hashed password. Unique emails stay unique. |
| `Admin.UpdateExistingUser` | backend/api/v1/admin.py:42-55 | An unknown id gives 404 "User not found" and changes nothing. A failed commit gives 500 and changes nothing. Otherwise only the sent fields of that user change. |
| `Admin.DeleteExistingUser` | backend/api/v1/admin.py:58-67 | An unknown id gives 404 and changes nothing. A failed commit gives 500 and changes nothing. Otherwise exactly that user is removed. |
| `Admin.UploadsByStatus` | backend/api/v1/admin.py:77-82 | The map holds exactly the statuses that occur, each with its number of uploads. |
| `Admin.StatusSetsSplitUploads` | backend/api/v1/admin.py:77-82 | Every upload has exactly one of the four statuses, so the sizes of the four status groups add up to the number of uploads. |
| `Admin.StatusCountsSumToTotal` | backend/api/v1/admin.py:73-88 | The per-status counts add up to `total_uploads`. |
| `CreateUser.UpsertExisting` | backend/create_user.py:20-23 | For an existing email, only that user's admin flag changes. Its nickname, password hash and every other user stay. |
| `CreateUser.UpsertNew` | backend/create_user.py:24-33 | For a new email, exactly one user is added at the next key, with the nickname, email, admin flag and hashed password. |
| `CreateUser.UpsertSetsAdmin` | backend/create_user.py:14-35 | Afterwards the user the email finds has the requested admin flag. A new user's password is the hash of the given password. |
| `CreateUser.UpsertIdempotent` | backend/create_user.py:20-35 | Two identical calls leave the table as one call does, even when each call hashes with a fresh salt. |
| `CreateUser.CreateUser` | backend/create_user.py:17-38 | When the commit succeeds the method performs exactly the upsert. When it fails the script raises and the table is unchanged. |

## Left out

- Reading the CSV (`pd.read_csv`, with the worker's `engine='python', on_bad_lines='skip'` and the backend's defaults) is an oracle: a table or None.
- The vectoriser and LDA (`CountVectorizer`, `LatentDirichletAllocation`, its random state) are an oracle `fit`. It returns the per-document arg-max topic, the vocabulary and the topic-term weights, or None when they raise; its tie-breaking is its own.
- VADER's `polarity_scores` is an oracle. Scores and means are real numbers, not floating point.
- The OpenRouter client is a `Client` with its key and a reply function. Its construction from the environment, the HTTP call, timeouts and the exact text of exceptions are outside the model. A missing `choices` entry or content is one more `ApiError`.
- Python's `\w`, `\s` and `str.lower` over Unicode are the parameter `CharClasses`. It is constrained only as far as the proofs need, by `TextNormalizer.WellFormed`: word and space are disjoint, ' ' is a space, `lower(' ') == ' '`, and lower-casing is idempotent.
- `TextNormalizer.Lowered` lowers character by character through `CharClasses.lower`, one character to one character. Python's `str.lower` is not like that for every string: a final capital sigma lowers by context, and "İ" lowers to two code points. Those cases are not captured.
- The key's user id is parsed as an optional sign followed by ASCII digits. Python's `int()` also accepts surrounding blanks, underscores between digits and other Unicode digits.
- `urllib.parse.unquote_plus` and the S3 download are parameters; the local file itself is not modelled.
- The `uploads` side of SQLAlchemy is modelled as one `Database` whose n-th commit succeeds or fails by an oracle. The `users` table's operations each take a flag `commitOk` for their one commit, and a failed commit leaves the table as it was. A database sequence may still consume the id of a failed insert; the model keeps `nextId`. `refresh`, `create_all` and `close` are not modelled, and neither are failures of anything but commits. The backend's separate session in `save_results_to_db` is the same `Database`, because the handler's session has nothing staged at that point.
- `Store.Status` has only the four statuses the code uses: the column default `pending` (backend/models.py:11) and the three the handlers write. The `status` column is a free `String(50)`, so a row written by other code with another status is not modelled.
- Logging, `print`, the `__main__` blocks and `Base.metadata.create_all` are left out.
- `Accounts.FindByEmail`: `.first()` without `ORDER BY` returns whichever matching row the database yields. The model takes the lowest key.
- Unique and NOT NULL constraints of the `users` table are not modelled. So a PUT that sends an email already in use, or an explicit null for `email` or `is_admin`, is not modelled as the database error it would be.
- Admin callers are not authenticated in the model (`get_current_admin_user`). `get_all_users` (a plain read), backend/api/v1/auth.py, backend/api/v1/uploads.py and the frontend are not part of this model.
- `get_password_hash` (bcrypt) is a function parameter per call; a fresh salt is a different function.
- `Pipeline.TopWordsAreHeaviestTerms` assumes vocabulary terms contain no space, which holds for the vectoriser's default token pattern.
- `TopicModel.TopTermIndicesSpec`: the order among terms of equal weight is left open, since `argsort` does not fix it.

## Findings

| source | as written | input that shows it | evidently intended | confidence | as-written member | corrected member |
|---|---|---|---|---|---|---|
| worker/lambda_function.py:61 | `Upload(filename=..., status='processing', user_id=user_id)`, but the worker's `Upload` (worker/models.py:5-11) has no `user_id` column. The declarative constructor raises TypeError before `upload_record` is bound, so the `except` block only rolls back and re-raises. | A notification for the key "7/r.csv" whose object downloads: the batch raises and no upload or result is stored. | The upload is recorded with the file name and user 7, analysed, and marked `completed` or `failed`. | high (worker/database.py, which defines `Base`, is not part of this model), not executed | `WorkerHandler.UserIdKeywordLosesEveryUpload` | `WorkerHandler.FinishedRecordAddsOneUpload` |
