# LibreSpeed tracker: a Dafny model of its measurement and storage core

The tracker runs speed tests against LibreSpeed servers and stores the results
in MySQL. This project models three parts of it in Dafny and proves
properties about them:

- the measurements of `utils/speedtest.js`: the streamed download with its
  timeout, the upload with its smaller fallback payload, and the ping series
  with its early stop and jitter;
- how `testServers` combines the four steps (server information, download,
  upload, ping) into one result record plus its `errors` list;
- the two stores that take a result: the lenient MySQL-pool store of
  `utils/database-native.js` and the strict Sequelize store of
  `utils/database.js`. For each, the model covers its validator, the
  guards of `saveResult`, the column repair (native store only) and
  `closeConnection`.

Modules:

- `Support`: optional values, `Array.prototype.join`, and integer-to-decimal rendering.
- `JsValues`: JavaScript values, `typeof`, truthiness, the result record, and
  the validators' shared message vocabulary. It also holds, for each
  validator, a statement of what it accepts written over the shape of the
  values, and the persisted row.
- `Probes`: `performDownloadTest`, `performUploadTest`, `generateTestData`,
  `performPingTest`, `calculateJitter`.
- `Orchestrator`: `testServers`, and `testServers` as written (see Findings).
- `NativeDb`, `OrmDb`: the two stores.
- `EndToEnd`: how the two validators relate, and how they judge what `testServers` produces.

The network is not modelled. Each run receives a `Transport`: the server
information body, the events of the download stream (data chunks, `end`, `error`,
the timer), the outcome of each of the two upload attempts, the outcome
of the `i`-th ping request, and the draws of `Math.random()`. Elapsed times
come with those events. A store's database is modelled as a sequence of rows
and an auto-increment counter. Each database call that can reject (the
INSERT or `create`, opening and closing the connection, the queries and
ALTER statements of the column repair) receives the error it rejects with,
if any, as an input.
Logging is treated as having no effect in the corrected model.

Where the specification and the code disagree, the model follows the code:

- Both validators accept `Infinity` as a speed, because `typeof` is
  "number", it is not NaN and it is not below zero. A zero elapsed time
  produces such a speed.
- `testServers` is meant not to raise when all four steps fail: its outer
  handler appends a summary entry and returns the record (utils/speedtest.js
  lines 83-92). That holds only when logging is treated as a no-op, which
  is how `TestServers` models it, returning the record with five errors. As
  written, the call to `error(...)` at line 89 throws first and the call
  rejects; `TestServersAsWritten` models that path (see Findings).

## Model

| member | source | states |
|---|---|---|
| Probes.SpeedMbps | utils/speedtest.js:121-123 | the speed is never negative; it is a finite number exactly when time elapsed, 0 exactly when no bytes moved, and NaN exactly for no bytes in no time (otherwise +Infinity) |
| Probes.SettleOn | utils/speedtest.js:117-168 | the event that settles the download rejects exactly when it is not `end` and no bytes have arrived; a resolved value is partial exactly when the stream did not end, and carries a note exactly then |
| Probes.DownloadSpec | utils/speedtest.js:101-174 | a resolved download speed is never negative |
| Probes.PerformDownloadTest | utils/speedtest.js:111-168 | running the `data`/`end`/`error` handlers and the timer over the events in order, with the promise settling once, yields the outcome decided by the first event that is not a chunk (or by the pending timer when no such event comes) |
| Probes.DownloadDecidedByFirstSettle | utils/speedtest.js:139-168 | every event after the first settling one is ignored (an `end` after the timeout, an `error` after `end`); the outcome depends only on that event and the bytes before it |
| Probes.DownloadFailsOnlyWithoutData | utils/speedtest.js:117-168 | the download rejects if and only if no bytes arrived before the stream failed or the timer fired; a stream that ends always yields a speed |
| Probes.UploadSpec | utils/speedtest.js:181-236 | the upload rejects if and only if both attempts fail, and then with the FIRST attempt's error; the result is partial (with a note) exactly when the full payload failed; the speed is that of whichever payload completed |
| Probes.PerformUploadTest | utils/speedtest.js:181-236 | the method builds its payloads with `GenerateTestData` and its outcome equals `UploadSpec` |
| Probes.GenerateTestData | utils/speedtest.js:295-301 | a fresh buffer of `size` bytes whose byte `i` is `floor(draw_i * 256)` stored modulo 256 |
| Probes.DrawFitsByte | utils/speedtest.js:298 | a draw in [0, 1) gives a value in 0..255 that the buffer stores unchanged |
| Probes.Jitter | utils/speedtest.js:308-317 | jitter is never negative |
| Probes.CalculateJitter | utils/speedtest.js:308-317 | the loop's result equals the mean absolute difference between neighbouring round trips, and 0 for fewer than two |
| Probes.JitterBoundedBySpread | utils/speedtest.js:311-316 | the jitter of round trips between lo and hi is at most hi - lo |
| Probes.JitterOfConstantIsZero | utils/speedtest.js:309-316 | equal round trips have zero jitter |
| Probes.MeanWithinBounds | utils/speedtest.js:275 | the average ping lies between the smallest and the largest round trip |
| Probes.Samples | utils/speedtest.js:249-257 | at most `n` replies among the first `n` requests |
| Probes.SamplesAndFailuresPartition | utils/speedtest.js:249-266 | each of the first `n` requests is either a reply or a failure |
| Probes.FailuresMonotone | utils/speedtest.js:258-260 | the failure count never decreases as requests are issued |
| Probes.PingSpec | utils/speedtest.js:249-283 | a resolved ping and jitter are non-negative; a note is present exactly when the series is partial; a resolved series had at most `floor(count/2)` failures; a rejection is either "all pings failed" or reports `floor(count/2)+1` failures out of the count |
| Probes.PerformPingTest | utils/speedtest.js:243-288 | the loop that counts failures and stops early yields `PingSpec`: rejection with failures `floor(count/2)+1` once they exceed half the count, then "all pings failed" when no request replied, else mean, jitter and the partial flag |
| Probes.PingPartialIffSomeFailed | utils/speedtest.js:281-282 | a completed series is partial if and only if some request failed, and its note then reports that failure count |
| Probes.AllPingsFailedOnlyWithoutPings | utils/speedtest.js:263-272 | "all pings failed" is reported if and only if the count is not positive: with a positive count, losing every request trips the early stop first |
| Probes.PrefixDetermines | utils/speedtest.js:249-266 | replies and failures of the first `n` requests depend only on those requests |
| Probes.PingIgnoresOutcomesAfterAbort | utils/speedtest.js:262-265 | once failures exceed half the count, the requests the early stop skips cannot change the outcome |
| Orchestrator.StepError | utils/speedtest.js:46-49 | a step contributes one `errors` entry if and only if it failed |
| Orchestrator.TestServers | utils/speedtest.js:10-94 | the step-by-step update of the result object equals `TestServersSpec`, which combines the four steps' outcomes |
| Orchestrator.ErrorsCountFailedSteps | utils/speedtest.js:42-92 | `errors` holds one entry per failed step, in step order, and the leading entries are exactly the step messages; a fifth, summary entry that lists the four is added if and only if all four failed |
| Orchestrator.FieldsReflectSteps | utils/speedtest.js:11-80 | each measurement is null if and only if its step failed, and otherwise holds what that step measured (speeds, ping and jitter); the server information is what its step returned; the url is copied; the name falls back to the url |
| Orchestrator.StepsDoNotInterfere | utils/speedtest.js:42-80 | changing the download's outcome leaves every other field unchanged |
| Orchestrator.TotalFailureKeepsNothing | utils/speedtest.js:83-92 | when all steps fail, only name and url are set, and the summary lists the four step errors in order |
| Orchestrator.TestServersAsWritten | utils/speedtest.js:42-93 | as written, the run resolves only with the intended record |
| Orchestrator.FallbackUnreachableAsWritten | utils/speedtest.js:205-233 | as written, a failed full upload rejects the run even when the small payload succeeds; the intended run records the small payload's speed and no upload error |
| Orchestrator.AsWrittenResolvesOnlyWithoutFailures | utils/speedtest.js:42-93 | as written, the run resolves if and only if no step fails and the full upload completes, and then `errors` is empty |
| NativeDb.Check | utils/database-native.js:140-176 | the JavaScript-style test of one field complains, with that field's lenient message, exactly when the field's value is not of an accepted shape |
| NativeDb.ValidateResult | utils/database-native.js:136-182 | valid if and only if there are no errors, if and only if every field is accepted (name and url non-empty strings, each measurement absent or a non-negative number, info an object or falsy); a field is flagged exactly when rejected; messages come in field order with the lenient text |
| NativeDb.ChecksFlagRejected | utils/database-native.js:136-182 | the gathered per-field checks flag exactly the rejected fields, in field order |
| NativeDb.FindColumn | utils/database-native.js:117 | the first column with that name, or none if and only if no column has it |
| NativeDb.AlterTargets | utils/database-native.js:114-122 | a name is altered if and only if it is listed and its column exists and is NOT NULL |
| NativeDb.AlterTargetsPrefix | utils/database-native.js:114-122 | checking a prefix of the list yields a prefix of the targets |
| NativeDb.IssueAlters | utils/database-native.js:114-122 | the ALTERs are issued for the targets in list order and stop at the first that fails: the completed ones are a prefix of the targets and each succeeded; the loop fails if and only if some target's ALTER fails, with the first such error, and otherwise completes every target |
| NativeDb.ModifyTableStructure | utils/database-native.js:102-129 | a failing `SHOW TABLES` or `SHOW COLUMNS` rethrows its error with no ALTER; a missing table means no ALTER and no error; otherwise the NOT NULL measurement columns are altered in list order up to the first failing ALTER, whose error is rethrown |
| NativeDb.SaveRejection | utils/database-native.js:188-199 | the connection check comes first; a connected save is refused if and only if validation fails, with "数据验证失败: " and the joined messages |
| NativeDb.RowOfAdmitted | utils/database-native.js:206-208 | a stored accepted record still reads back accepted (a falsy info becomes `{}`) |
| NativeDb.NativeStore.SaveResult | utils/database-native.js:188-227 | a refusal or an INSERT error throws and leaves the table alone; otherwise one row is appended with the next id, which is returned; every stored row passed validation and ids increase |
| NativeDb.NativeStore.Insert | utils/database-native.js:210-222 | the INSERT appends the row under the next id and keeps the store invariant |
| NativeDb.NativeStore.InitDatabase | utils/database-native.js:23-50 | the pool becomes set even when the connection test, the table creation or the column repair then rejects, and that error is rethrown (index errors are caught one by one); the table is unchanged |
| NativeDb.NativeStore.CloseConnection | utils/database-native.js:309-315 | when `pool.end()` resolves, the pool is forgotten; when it rejects, the error is rethrown and the pool stays set; without a pool nothing changes; the table is kept |
| NativeDb.SaveResultAsWritten | utils/database-native.js:188-227 | as written, every connected save throws "logError is not a function"; the INSERT ran if and only if the record was valid and the database accepted it |
| NativeDb.SavedRowReportedAsFailure | utils/database-native.js:195-222 | as written, a valid record is stored, yet the caller is told the save failed |
| NativeDb.ModifyTableStructureAsWritten | utils/database-native.js:102-129 | as written, no ALTER is completed, and the call rejects, with "logError is not a function", unless `SHOW TABLES` finds no table |
| NativeDb.RepairSkippedAsWritten | utils/database-native.js:116-122 | a NOT NULL measurement column stays unrepaired as written, but the corrected loop alters it |
| OrmDb.Check | utils/database.js:126-162 | the test of one field complains exactly when the value is not of an accepted shape; a measurement gets "不能为空" when it is null or undefined, and "必须是非负数" otherwise |
| OrmDb.ValidateResult | utils/database.js:122-168 | valid if and only if there are no errors, if and only if every field is accepted (each measurement a non-negative number); a field is flagged exactly when rejected; messages come in field order with the strict text |
| OrmDb.ChecksFlagRejected | utils/database.js:122-168 | the gathered checks flag exactly the rejected fields, in field order |
| OrmDb.SaveRejection | utils/database.js:174-185 | a save is refused when either handle is unset; otherwise it is refused if and only if strict validation fails, with the joined messages |
| OrmDb.RowOfAdmitted | utils/database.js:188-197 | a created accepted record still reads back accepted |
| OrmDb.OrmStore.SaveResult | utils/database.js:174-205 | a refusal or a `create` error throws and leaves the table alone; otherwise one row is appended with the next id; every stored row passed strict validation |
| OrmDb.OrmStore.Insert | utils/database.js:188-200 | `create` appends the row under the next id and keeps the store invariant |
| OrmDb.OrmStore.InitDatabase | utils/database.js:9-46 | `sequelize` becomes set; if `authenticate()` rejects, its error is rethrown and the model handle is left as it was; otherwise the model handle is set too, and a sync error is rethrown, while index errors are swallowed by `createIndexes`; the table is unchanged |
| OrmDb.OrmStore.CloseConnection | utils/database.js:266-273 | when `sequelize` is set and `close()` resolves, both handles are cleared; when `close()` rejects, its error is rethrown and both handles stay; without `sequelize` nothing changes; the table is kept |
| EndToEnd.StrictImpliesLenient | utils/database.js:122-168 | a record the strict validator accepts passes the lenient one, and every field the lenient validator flags is also flagged by the strict one |
| EndToEnd.ValidatorsDifferOnlyOnMissing | utils/database-native.js:149-170 | the lenient validator accepts a field the strict one rejects if and only if it is a measurement that is null or undefined |
| EndToEnd.MissingIffAbsent | utils/database.js:135-157 | the strict "missing" message for a measurement appears if and only if the value is null or undefined |
| EndToEnd.StrictMissingMatchesFailedSteps | utils/speedtest.js:51-80 | whatever the step outcomes, the strict validator reports a measurement of the assembled record missing if and only if its step failed |
| EndToEnd.PartialRunRejectedByStrict | utils/database.js:135-157 | a run in which the download, upload or ping step failed cannot be saved in the strict store |
| EndToEnd.CompleteRunAcceptedByStrict | utils/database.js:122-168 | a fully successful run with a url, object-or-falsy info and non-NaN speeds has no errors and passes strict validation |
| EndToEnd.PartialRunAcceptedByLenient | utils/database-native.js:136-182 | under the same conditions on the successful steps, the lenient validator accepts a run whatever failed |

## Left out

- HTTP, the axios client, basic-auth headers, request timeouts and `Date.now()` are not modelled. Their effects arrive as `Transport` inputs and elapsed times.
- The `toFixed(2)` rounding of speeds, ping and jitter is left out: JavaScript floating-point formatting is not modelled, so values are exact reals.
- `Probes.PerformUploadTest`: the second payload draws from the same `random` source as the first. The bytes never influence the outcome.
- `Probes.PerformPingTest`: `pingCount` is an integer. A fractional count from configuration is not modelled.
- `Orchestrator.ServerConfig`: a missing name is written as the empty string. Both are falsy, so `server.name || server.url` treats them alike.
- `Orchestrator.TestServersAsWritten`: it assumes Node's `TypeError` text "error is not a function".
- SQL text, Sequelize model definitions, table and index creation, `initTables`, `createIndexes` and `sequelize.sync` are not modelled. What `initDatabase` does to the connection handles is modelled, and so are the errors it rethrows, each of which arrives as an input.
- `NativeDb.NativeStore.InitDatabase`: as written it sets `pool` and then fails at its first logging call. The model keeps the handle and the rethrown setup error only, because `initDatabase` is not part of this model beyond that.
- Database errors are opaque strings. Which SQL condition makes a call reject is not modelled.
- `OrmDb.OrmStore.SaveResult`: it returns the new row's id where the code returns the created record.
- Stored rows hold `server_info` as a value or `{}`. `JSON.stringify` and the JSON column are not modelled.
- `getHistoryResults` and `getServerStats` are queries outside this model.
- `index.js`, configuration loading, `utils/logger.js` and the test scripts are not part of this model.
- Concurrency between runs and between stores is not modelled.

## Findings

| source | as written | input that shows it | evidently intended | confidence | as-written member | corrected member |
|---|---|---|---|---|---|---|
| utils/speedtest.js:46-47 | every `catch (error)` binding shadows the imported `error` logger, so `error(...)` in each handler throws a `TypeError`; the outer handler does the same, and `testServers` rejects | full upload fails, small upload succeeds, other steps succeed | record the failure and keep going, as the comment at line 90 says; the small payload is used, as the comment at line 233 says | high, not executed | Orchestrator.FallbackUnreachableAsWritten | Orchestrator.TestServers |
| utils/database-native.js:2 | `logInfo`, `logError` and `logWarn` are destructured from a logger that exports `log`, `error` and `warn`, so each call throws; `saveResult` stores a valid row and then throws "logError is not a function" | a valid record on a live pool with no database error | resolve with `{ id }` after the INSERT | high, not executed | NativeDb.SavedRowReportedAsFailure | NativeDb.NativeStore.SaveResult |
| utils/database-native.js:119 | the `logInfo` call before each ALTER, and the success log after the loop, throw, so `modifyTableStructure` never alters a column of an existing table | an existing table whose `ping` column is NOT NULL | issue `ALTER TABLE ... MODIFY COLUMN ping FLOAT` | high, not executed | NativeDb.RepairSkippedAsWritten | NativeDb.ModifyTableStructure |
