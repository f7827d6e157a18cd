# AMFK Starfish site sync: a Dafny model

This project models the core of the AMFK Starfish site-sync service. The
service is a Spring application. It periodically:

- pulls the site list from a master service;
- stores a JSON snapshot of it in a job record;
- looks each site up by cluster name;
- tallies the outcome in the job log.

The model covers these pieces:

- the sync run (`SiteSyncService`) and its JSON snapshot (`SiteSnapshot`);
- the job record and its state changes (`JobExecution`);
- the job-log queries (`JobExecutionRepository`);
- the two HTTP clients, with their URLs, headers and outcome classification
  (`MasterServiceClient`, `StarfishApiClient`, with `Base64` and `Http`);
- the derived accessors of the site record (`SiteDto`);
- the grouping of detail rows in the mock API (`MockApiController`);
- the execution-time bookkeeping of the two scheduled-task services
  (`ExecutionTracking`, `ScheduledTaskService`, `ExampleScheduledTaskService`).

Java's runtime is represented as follows:

- `LocalDateTime.now()` is a `Clock`: the k-th reading is `clock(k)`, in
  nanoseconds. `Monotone(clock)` is the assumption that it never goes back.
- Exceptions are `Throwable` values carrying a class, a message and a cause.
- HTTP exchanges, the site fetch, the detail lookups and `Thread.sleep` are
  oracles passed in as parameters.
- Saving a job record appends a copy of it to the run's trace.
- Java `null` is `None`.

Behaviour of the code that a reader might not expect, and where the model
states it:

- `getSites` has no repair of truncated upstream bodies. It relies on the
  framework's deserializer and recognises a truncated body only through
  `isTruncatedChunkException`.
- An interrupted `Thread.sleep(100)` after `processedCount++` sends the site
  through the catch block, so that site is counted twice. `recordsProcessed`
  is the number of sites, and `success + failure` is the number of sites,
  only in runs without interrupts. `SiteSyncService.TallyCounts` states the
  count as written, and `SiteSyncService.NoInterruptsProcessesEachOnce`
  states the run without interrupts.
- `complete()` and `fail()` have no guard on the current status, so the
  last call wins (`JobExecution.Complete`, `JobExecution.Fail`).
- `durationMs` is `Duration.toMillis`: whole milliseconds, rounded toward
  zero (`JobExecution.DurationMillis`).
- The error message of a failed record is `e.getMessage()`, which may be
  null (`SiteSyncService.FailedFetchRecord`).
- `convertToSiteDto` calls setters (`setSiteId`, `setSiteName`, `setSiteCode`,
  `setStatus`) that `SiteDto` does not declare. The model maps each source
  key onto a record with one field per key (`MasterServiceClient.SiteFields`).
  The sync run takes its sites as `SiteDto` values from the fetch oracle.

## Model

| member | source | states |
|---|---|---|
| JavaLang.Chain | src/main/java/com/amfk/starfish/sync/service/MasterServiceClient.java:206-213 | the cause chain starts at the exception itself and continues as the chain of its cause, the links `cause = cause.getCause()` visits (acyclic chains only; see Left out) |
| JavaLang.Trim | src/main/java/com/amfk/starfish/sync/service/MasterServiceClient.java:171 | `String.trim` returns a contiguous slice of its input with no blank at either end, and is empty exactly when the input is all blanks |
| JavaLang.TrimIdempotent | src/main/java/com/amfk/starfish/sync/service/MasterServiceClient.java:171 | trimming twice equals trimming once |
| JavaLang.ParseIntToString | src/main/java/com/amfk/starfish/sync/dto/SiteDto.java:275 | the decimal text of an integer parses back to that integer |
| JavaLang.CanonicalIsRendering | src/main/java/com/amfk/starfish/sync/dto/SiteDto.java:275 | every canonical decimal text is `Integer.toString` of the number it reads as, so the canonical rendering of a number is unique |
| JavaLang.IntToStringInjective | src/main/java/com/amfk/starfish/sync/dto/SiteDto.java:275 | two integers with the same decimal text are equal |
| JobExecution.DurationMillis | src/main/java/com/amfk/starfish/sync/entity/JobExecution.java:175 | the duration is the whole number of milliseconds between start and end, rounded toward zero: non-negative and at most the difference when the end is not before the start, non-positive and at least the difference otherwise |
| JobExecution.DurationTruncates | src/main/java/com/amfk/starfish/sync/entity/JobExecution.java:175 | a duration 1 ns negative is 0 ms and one 1.5 ms negative is -1 ms: rounding is toward zero, not down |
| JobExecution.Blank | src/main/java/com/amfk/starfish/sync/entity/JobExecution.java:57-60 | the default constructor sets createTs and updateTs from two readings and leaves every other field null |
| JobExecution.Start | src/main/java/com/amfk/starfish/sync/entity/JobExecution.java:63-69 | the two-argument constructor sets the given id and name, RUNNING and startTime = now; endTime, durationMs, errorMessage, recordsProcessed and apiResponse stay null |
| JobExecution.ApplySetter | src/main/java/com/amfk/starfish/sync/entity/JobExecution.java:76-170 | a setter writes its own field and nothing else; setStatus, setEndTime, setErrorMessage and setApiResponse also set updateTs to now, and no other setter touches it |
| JobExecution.Complete | src/main/java/com/amfk/starfish/sync/entity/JobExecution.java:172-177 | complete() sets COMPLETED, endTime = now and durationMs = the whole milliseconds from startTime to endTime, rounded toward zero, and leaves errorMessage, apiResponse and recordsProcessed alone; with a null startTime it throws a NullPointerException, with a message and no cause, after setting status and endTime |
| JobExecution.Fail | src/main/java/com/amfk/starfish/sync/entity/JobExecution.java:179-185 | fail(msg) sets FAILED, endTime = now, durationMs = the whole milliseconds from startTime to endTime, rounded toward zero, and errorMessage = msg, and leaves the other fields alone; with a null startTime it throws a NullPointerException, with a message and no cause, after setting status and endTime, so the message stays unset |
| JobExecution.CancelledOnlyBySetStatus | src/main/java/com/amfk/starfish/sync/entity/JobExecution.java:52-185 | over any sequence of calls, a record reaches CANCELLED only through an explicit setStatus(CANCELLED) |
| JobExecution.FinishReadings | src/main/java/com/amfk/starfish/sync/entity/JobExecution.java:172-185 | complete and fail read the clock twice when they return and once when a null start time makes them throw, so the next setter after a caught throw gets the reading right after the end time |
| JobExecution.DurationNeverNegative | src/main/java/com/amfk/starfish/sync/entity/JobExecution.java:172-185 | on a monotone clock, however often and in whatever order complete and fail are called, the duration is the one computed from the record's start and end and is never negative |
| JobExecution.StartThenFinish | src/main/java/com/amfk/starfish/sync/entity/JobExecution.java:63-185 | a fresh record completed or failed later on a monotone clock gets the terminal status and a non-negative duration equal to the milliseconds from start to end |
| SiteDto.Empty | src/main/java/com/amfk/starfish/sync/dto/SiteDto.java:78 | the no-argument constructor leaves every field null |
| SiteDto.Make | src/main/java/com/amfk/starfish/sync/dto/SiteDto.java:81-86 | the four-argument constructor sets exactly id, name, clusterName and clusterId; every other field, location included, stays null |
| SiteDto.SiteId | src/main/java/com/amfk/starfish/sync/dto/SiteDto.java:274-276 | getSiteId is null iff id is null, and otherwise canonical decimal text (no leading zero, no "-0") that parses back to the id, hence exactly `String.valueOf(id)` |
| SiteDto.Status | src/main/java/com/amfk/starfish/sync/dto/SiteDto.java:286-288 | getStatus is null iff active is null, "ACTIVE" iff active is 1, and "INACTIVE" iff active is some other value |
| SiteDto.ViewsDetermineIdentity | src/main/java/com/amfk/starfish/sync/dto/SiteDto.java:274-284 | two sites with the same getSiteId, getSiteName and getSiteCode agree on id, name and locationCode |
| SiteDto.SetThenGetLocation | src/main/java/com/amfk/starfish/sync/dto/SiteDto.java:265-271 | getLocation after setLocation(x) gives x, and no other field changes |
| Http.HealthCheck | src/main/java/com/amfk/starfish/sync/service/MasterServiceClient.java:192-201 | the health check is true iff the GET of base URL + "/health" answers 2xx, and is false whenever the GET throws |
| MasterServiceClient.ConvertSite | src/main/java/com/amfk/starfish/sync/service/MasterServiceClient.java:138-175 | each of the eight keys is copied as text iff it is present; a present null value makes the mapping throw a NullPointerException with a message and no cause; location is trim(city + " " + street), with an absent key read as "", and is set iff city or street is non-empty |
| MasterServiceClient.LocationIsTrimmed | src/main/java/com/amfk/starfish/sync/service/MasterServiceClient.java:167-172 | the derived location has no surrounding blanks, and is empty iff city + " " + street is all blanks |
| MasterServiceClient.ConvertAll | src/main/java/com/amfk/starfish/sync/service/MasterServiceClient.java:95-97 | the list maps element by element, keeping length and order, and fails iff some element's mapping fails, with a mapping's NullPointerException |
| MasterServiceClient.SitesUrl | src/main/java/com/amfk/starfish/sync/service/MasterServiceClient.java:60 | the URL is the base URL followed by the sites path |
| MasterServiceClient.MasterHeaders | src/main/java/com/amfk/starfish/sync/service/MasterServiceClient.java:177-190 | the five fixed headers are always present; Authorization is present iff the token is non-null and non-empty, and its Bearer credential is the token (section 2.1 of RFC 6750) |
| MasterServiceClient.GetSites | src/main/java/com/amfk/starfish/sync/service/MasterServiceClient.java:59-126 | a 2xx answer with a body gives the mapped list in body order, and a failed mapping escapes as a RuntimeException wrapping the mapping's NullPointerException; any other answer gives the empty list; rest-client exceptions escape unchanged and anything else escapes wrapped |
| MasterServiceClient.GetSitesKeepsCause | src/main/java/com/amfk/starfish/sync/service/MasterServiceClient.java:104-125 | when the exchange throws, the cause chain of what escapes ends with the exchange's own chain, so the truncated-chunk test answers the same before and after the wrapping |
| MasterServiceClient.IsTruncatedChunkException | src/main/java/com/amfk/starfish/sync/service/MasterServiceClient.java:206-215 | the walk answers true iff some link of the cause chain is a TruncatedChunkException |
| Base64.Encode | src/main/java/com/amfk/starfish/sync/service/StarfishApiClient.java:146 | the encoding has 4 characters for every started group of 3 bytes (section 4 of RFC 4648) |
| Base64.DecodeEncode | src/main/java/com/amfk/starfish/sync/service/StarfishApiClient.java:146 | decoding the encoding of any byte string gives the bytes back |
| Base64.EncodeAlphabet | src/main/java/com/amfk/starfish/sync/service/StarfishApiClient.java:146 | every character of an encoding is a letter of the base 64 alphabet or the pad |
| StarfishApiClient.StarfishHeaders | src/main/java/com/amfk/starfish/sync/service/StarfishApiClient.java:136-151 | Content-Type and Accept are always JSON; Authorization is present iff username and password are both non-null and non-empty, and its Basic credential decodes to the bytes of "username:password" (section 2 of RFC 7617) |
| StarfishApiClient.SiteUrl | src/main/java/com/amfk/starfish/sync/service/StarfishApiClient.java:48 | the URL is the base URL, "/api/sites/", and the id, with null spelled "null" |
| StarfishApiClient.SiteCodeUrl | src/main/java/com/amfk/starfish/sync/service/StarfishApiClient.java:95 | the URL is the base URL, "/api/sites/code/", and the code |
| StarfishApiClient.GetSiteInfo | src/main/java/com/amfk/starfish/sync/service/StarfishApiClient.java:47-87 | a site comes back iff the answer is 2xx with a body; null comes back iff the answer is otherwise or a 404 is thrown; other client, server and resource errors escape unchanged; anything else escapes wrapped with the id in the message |
| StarfishApiClient.GetSiteInfoByCode | src/main/java/com/amfk/starfish/sync/service/StarfishApiClient.java:94-134 | as the lookup by id, with the by-code URL and the code in the wrapping message |
| StarfishApiClient.LookupsAgree | src/main/java/com/amfk/starfish/sync/service/StarfishApiClient.java:47-134 | given the same exchange outcome, the lookup by id and the lookup by code return the same site or null and rethrow the same exception, and their wrapped exceptions differ only in the message |
| MockApiController.CastString | src/main/java/com/amfk/starfish/sync/controller/MockApiController.java:29-30 | the (String) cast succeeds iff the column is null or text, and then gives that text; any other value makes it throw a ClassCastException with a message and no cause |
| MockApiController.RangeOf | src/main/java/com/amfk/starfish/sync/controller/MockApiController.java:42-47 | a range copies type, lowerbound, upperbound and prefix from its row and has no extensions |
| MockApiController.CastRows | src/main/java/com/amfk/starfish/sync/controller/MockApiController.java:28-30 | the rows cast iff every site and cm column casts, the cast rows keep their values in order, and a failed cast escapes as a ClassCastException with a message and no cause |
| MockApiController.GroupIsGrouping | src/main/java/com/amfk/starfish/sync/controller/MockApiController.java:26-52 | the grouping loop gives one group per distinct key, no two alike; Site and CM come from the first row with the key; each group holds the ranges of exactly the rows with its key, in row order; the ranges number the rows |
| MockApiController.GetSiteDetails | src/main/java/com/amfk/starfish/sync/controller/MockApiController.java:20-74 | no rows, a throwing query or a failing cast give exactly the single entry {SiteName, "", []}; otherwise the results are the grouping of the rows by site + "_" + cm; never empty |
| MockApiController.KeyCollisionMerges | src/main/java/com/amfk/starfish/sync/controller/MockApiController.java:29-39 | the pairs ("a_b", "c") and ("a", "b_c") share the key "a_b_c" and end up in one group headed by the first row |
| JobExecutionRepository.FindByJobNameOrderByCreateTsDesc | src/main/java/com/amfk/starfish/sync/repository/JobExecutionRepository.java:16 | exactly the rows of that name, with multiplicity, newest first |
| JobExecutionRepository.FindByStatusOrderByCreateTsDesc | src/main/java/com/amfk/starfish/sync/repository/JobExecutionRepository.java:18 | exactly the rows in that status, with multiplicity, newest first |
| JobExecutionRepository.FindFirstByJobNameOrderByCreateTsDesc | src/main/java/com/amfk/starfish/sync/repository/JobExecutionRepository.java:20 | empty iff no row has the name; otherwise a row of the table with that name and a creation time no earlier than any other row of that name |
| JobExecutionRepository.FindByJobNameAndCreateTsAfter | src/main/java/com/amfk/starfish/sync/repository/JobExecutionRepository.java:22-23 | exactly the rows of that name created at or after the date (the bound is inclusive), newest first |
| JobExecutionRepository.CountByJobNameAndStatusAndCreateTsAfter | src/main/java/com/amfk/starfish/sync/repository/JobExecutionRepository.java:25-28 | the count is the number of rows with that name and status created at or after the date |
| JobExecutionRepository.FindRunningJobs | src/main/java/com/amfk/starfish/sync/repository/JobExecutionRepository.java:30-31 | exactly the RUNNING rows, with multiplicity |
| JobExecutionRepository.CountIsRangedFindInStatus | src/main/java/com/amfk/starfish/sync/repository/JobExecutionRepository.java:22-28 | the count query counts exactly the rows of the ranged find that are in the given status |
| JobExecutionRepository.FirstIsHeadOfList | src/main/java/com/amfk/starfish/sync/repository/JobExecutionRepository.java:16-20 | the first row by name is the head of the list by name |
| JobExecutionRepository.RangedFindWithinByName | src/main/java/com/amfk/starfish/sync/repository/JobExecutionRepository.java:16-23 | the rows since a date are the rows by name with the older ones removed |
| SiteSnapshot.SnapshotValues | src/main/java/com/amfk/starfish/sync/service/SiteSyncService.java:220-228 | a site contributes nine values in fixed order; null becomes "", and clusterId is written in decimal |
| SiteSnapshot.ConvertSitesToJson | src/main/java/com/amfk/starfish/sync/service/SiteSyncService.java:212-237 | the snapshot starts with {"sites":[ and ends with ]}, and is exactly {"sites":[]} iff the list is empty |
| SiteSnapshot.SnapshotReadsBack | src/main/java/com/amfk/starfish/sync/service/SiteSyncService.java:212-237 | reading the snapshot back gives the nine values of every site, in list order, when no value holds a quote |
| SiteSnapshot.QuoteCutsValue | src/main/java/com/amfk/starfish/sync/service/SiteSyncService.java:220-228 | values are not escaped: a value holding a quote reads back cut short, and the rest is left over as if it were JSON |
| SiteSyncService.SiteCounts | src/main/java/com/amfk/starfish/sync/service/SiteSyncService.java:86-115 | a site is a success iff the lookup returned a non-null, non-empty list; it is processed twice iff the lookup returned and the sleep after it was interrupted; processed is always success + failure |
| SiteSyncService.Tally | src/main/java/com/amfk/starfish/sync/service/SiteSyncService.java:81-116 | after n sites, processed = success + failure, n <= processed <= 2n and success <= n |
| SiteSyncService.TallyCounts | src/main/java/com/amfk/starfish/sync/service/SiteSyncService.java:81-116 | successes are exactly the sites whose lookup found rows; processed is the number of sites plus the number of interrupted sleeps |
| SiteSyncService.NoInterruptsProcessesEachOnce | src/main/java/com/amfk/starfish/sync/service/SiteSyncService.java:81-116 | without interrupts, processed equals the number of sites and failure the number of sites whose lookup found nothing or threw |
| SiteSyncService.Started | src/main/java/com/amfk/starfish/sync/service/SiteSyncService.java:52-56 | the first record saved is RUNNING, named SITE_SYNC_JOB, with the run's id and no end, duration or error |
| SiteSyncService.LookupAll | src/main/java/com/amfk/starfish/sync/service/SiteSyncService.java:85-116 | one lookup per site, in list order, with that site's cluster name; the counters end equal to the reference tally |
| SiteSyncService.SyncSitesAsync | src/main/java/com/amfk/starfish/sync/service/SiteSyncService.java:50-152 | the RUNNING record is saved before the fetch; a failed fetch saves a FAILED record with the exception's message, makes no lookup and escapes wrapped; an empty list saves a completed record with zero records, makes no lookup and returns "Site sync completed - no sites found"; otherwise the snapshot record, one lookup per site in order, and the completed record are saved, and the summary reports the tally |
| SiteSyncService.ProcessSites | src/main/java/com/amfk/starfish/sync/service/SiteSyncService.java:75-137 | after the fetch, the run saves the snapshot record, looks each site up in order, saves the completed record with the processed count and returns the summary of the tally |
| SiteSyncService.FinalRecord | src/main/java/com/amfk/starfish/sync/service/SiteSyncService.java:120-122 | the final record of a run with sites is COMPLETED and holds the snapshot and the processed count, with no error and, on a monotone clock, a non-negative duration |
| SiteSyncService.EmptyRunRecord | src/main/java/com/amfk/starfish/sync/service/SiteSyncService.java:64-70 | an empty list leaves a COMPLETED record with zero records, no snapshot, no error and, on a monotone clock, a non-negative duration |
| SiteSyncService.FailedFetchRecord | src/main/java/com/amfk/starfish/sync/service/SiteSyncService.java:139-150 | a failed fetch leaves a FAILED record carrying the exception's message and, on a monotone clock, a non-negative duration |
| SiteSyncService.ExecutionFailure | src/main/java/com/amfk/starfish/sync/service/SiteSyncService.java:156 | the ExecutionException that get() throws has the run's exception as its cause |
| SiteSyncService.SyncSites | src/main/java/com/amfk/starfish/sync/service/SiteSyncService.java:154-161 | syncSites succeeds iff the run does, and then with the run's summary; otherwise it throws "Site sync failed", whose cause chain ends with the run's whole chain |
| SiteSyncService.FetchErrorReachesCaller | src/main/java/com/amfk/starfish/sync/service/SiteSyncService.java:139-161 | when the fetch fails, the fetch's exception is the fourth link of the chain syncSites throws |
| ExecutionTracking.Init | src/main/java/com/amfk/starfish/sync/service/ScheduledTaskService.java:48-53 | after construction there is no last execution and the next one is one interval after now |
| ExecutionTracking.Track | src/main/java/com/amfk/starfish/sync/service/ScheduledTaskService.java:66-72 | a call sets last to its second reading and next to one interval later |
| ExecutionTracking.ApiCall | src/main/java/com/amfk/starfish/sync/service/ScheduledTaskService.java:65-79 | a scheduled API call takes two readings, calls the API once, updates last and next before the call, and lets the call's exception escape |
| ExecutionTracking.TrackRunsLast | src/main/java/com/amfk/starfish/sync/service/ScheduledTaskService.java:65-79 | after n calls, last is the second reading of the n-th call and next is one interval later, whatever was tracked before |
| ExecutionTracking.TrackRunsConsistent | src/main/java/com/amfk/starfish/sync/service/ScheduledTaskService.java:48-79 | from construction on, through any number of calls, a recorded last execution always has next = last + 2 minutes |
| ExecutionTracking.TrackRunsAdvance | src/main/java/com/amfk/starfish/sync/service/ScheduledTaskService.java:65-72 | on a monotone clock, a further call never moves last or next backwards |
| ScheduledTaskService.DefaultConfig | src/main/java/com/amfk/starfish/sync/service/ScheduledTaskService.java:35-39 | by default site sync is enabled, with cron "0 0 */2 * * ?" |
| ScheduledTaskService.ScheduledSiteSync | src/main/java/com/amfk/starfish/sync/service/ScheduledTaskService.java:92-109 | disabled: no call and no clock reading; enabled: exactly one syncSites call; never throws, and never changes the tracked times |
| ScheduledTaskService.GetScheduleIntervalMs | src/main/java/com/amfk/starfish/sync/service/ScheduledTaskService.java:135-137 | the interval, 120000 ms, is exactly the two minutes added to next |
| ExampleScheduledTaskService.GetScheduleIntervalMs | src/main/java/com/example/scheduler/service/ScheduledTaskService.java:52-54 | the interval, 120000 ms, is exactly the two minutes added to next |

`ExampleScheduledTaskService` runs the same `ExecutionTracking.ApiCall` as the
other service (its constructor and `scheduledApiCall` are lines 23-42 of its
file). `StarfishApiClient.IsApiHealthy` and
`MasterServiceClient.IsServiceHealthy` both use `Http.HealthCheck`.

## Left out

- HTTP transport and `RestTemplate.exchange`: each exchange is an oracle.
- The `@Retryable` / `@Recover` retry and backoff of both clients: framework
  behaviour. Each client function models one attempt. `recover` only wraps
  the last error in a RuntimeException.
- `@Async`, `CompletableFuture.supplyAsync`, `.get()` and the 100 ms delay:
  the run is sequential. Only the sleep's interruption is kept, because the
  counters depend on it.
- Persistence: `save` appends the record to the trace, and the database never
  fails. Ids generated by the database, column lengths and collation are not
  modelled.
- `MockApiService`'s SQL queries: the detail lookup is an oracle.
- Logging, `System.out` and `UUID.randomUUID()`: the job id is a parameter.
- The commented-out e-mail notifications.
- Cron evaluation for `scheduledSiteSync`: done by the framework scheduler.
- Both SchedulerControllers, SchedulerApplication, ApiCallService, the
  configuration classes and StarfishSiteDto: glue and configuration.
- The message of the ExecutionException around a failed run is a parameter.
  It comes from the exception's `toString()`, which is not modelled.
- A null site list from the fetch, a null query result in the mock
  controller, and null repository arguments: the modelled callers never pass
  them.
- A null element in the site list: it would send `convertSitesToJson` to its
  error JSON. Sites are never null here.
- SiteSyncService.SyncSitesAsync: the counters are Java `int`s. The model
  uses unbounded integers and does not model overflow, which would need more
  than 2^31 lookups.
- MockApiController.GetSiteDetails: groups come out of a HashMap, so their
  order is unspecified. The model lists them in first-seen order, and its
  contract does not depend on the order.
- JobExecutionRepository.FindByJobNameOrderByCreateTsDesc: rows created at
  the same instant may come in any order in the database. The model sorts
  them in an order of its own. The same holds for the other ordered queries.
- JobExecutionRepository.FindRunningJobs: the query has no ORDER BY. The
  model keeps table order, and its contract states only the rows.
- MasterServiceClient.IsTruncatedChunkException: a cyclic cause chain (built
  with `initCause`) makes the source loop forever; the model's chains are
  finite, so the model always answers.
- JobExecution.ApplySetter: `createTs` and `updateTs` are never null in the
  model, so `setCreateTs(null)` and `setUpdateTs(null)` are not expressible.
  The constructors always set both and the modelled code never clears them.
- SiteSyncService.Summary: `String.format`'s `%d` uses the default locale,
  whose digits may not be ASCII. The model writes ASCII decimal digits.
- MasterServiceClient.GetSites: a null element in the response body (JSON
  `[null]`) throws a NullPointerException in the logging loop or in
  `convertToSiteDto`, which is then wrapped. The body is a sequence of maps
  in the model, so that case is not represented.
- JobExecution.Complete: the message of the NullPointerException on a null
  start time is composed by the JVM. The model carries a stand-in text, and
  the contract states only that the message is non-null.
- JobExecution.Fail: the same holds for its NullPointerException.
- MasterServiceClient.ConvertSite: the NullPointerException's message is the
  JVM's; the contract states only that it is non-null.
- MasterServiceClient.ConvertAll: the same holds for the mapping's exception.
- MasterServiceClient.GetSites: the same holds for the wrapped mapping
  exception.
- MockApiController.CastRows: the ClassCastException's message names the
  class of the offending value, which a row value does not record. The model
  carries a stand-in text, and the contract states only that it is non-null.
- `java.lang.Error` and its subclasses, such as `OutOfMemoryError`: they
  pass through every `catch (Exception e)` block. Every class the model's
  `Kind` names, `OtherException` included, is an `Exception`.
